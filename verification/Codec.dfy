/**
 The serialization of transactions, headers and blocks (tx.py, block.py): every object has exactly
 one encoding, reading it gives the object back, and whatever reads successfully is that encoding.
 */
module Codec {
  import opened Types
  import opened Encoding

  const TX_VERSION: nat := 1
  const TYPE_COINBASE: nat := 0
  const TYPE_TRANSFER: nat := 1
  const PAYLOAD_SIZE: nat := 21
  const KEY_SIZE: nat := 32
  const SIGNATURE_SIZE: nat := 64

  /** Headers as they travel: 32 raw bytes where other modules keep a digest. */
  type WireHeader = Header<Bytes>

  datatype WireBlock = WireBlock(header: WireHeader, txs: seq<Transaction>)

  // --- the encodings ---------------------------------------------------------------------------------------

  ghost predicate OutputFits(o: Output) {
    o.address < Pow256(PAYLOAD_SIZE) && o.amount < Pow256(8)
  }

  function EncodeOutput(o: Output): Bytes {
    Big(o.address, PAYLOAD_SIZE) + Big(o.amount, 8)
  }

  function EncodeOutputs(outputs: seq<Output>): Bytes {
    if outputs == [] then [] else EncodeOutput(outputs[0]) + EncodeOutputs(outputs[1..])
  }

  ghost predicate BodyFits(tx: Transaction) {
    match tx
    case Transfer(_, key, nonce, fee, outputs, memo, signature) =>
      |key| == KEY_SIZE && nonce < Pow256(8) && fee < Pow256(8) && PayloadFits(outputs, memo, signature)
    case Coinbase(_, height, address, amount, memo) =>
      height < Pow256(8) && address < Pow256(PAYLOAD_SIZE) && amount < Pow256(8) && |memo| < 256
  }

  /** Every field fits its place. */
  ghost predicate TxFits(tx: Transaction) { tx.networkId < Pow256(1) && BodyFits(tx) }

  function EncodeVar8(b: Bytes): Bytes { Big(|b|, 1) + b }

  /** The end of a transfer: outputs, memo and signature. */
  function EncodePayload(outputs: seq<Output>, memo: Bytes, signature: Bytes): Bytes {
    Big(|outputs|, 1) + (EncodeOutputs(outputs) + (EncodeVar8(memo) + signature))
  }

  ghost predicate PayloadFits(outputs: seq<Output>, memo: Bytes, signature: Bytes) {
    && |outputs| < Pow256(1) && (forall o :: o in outputs ==> OutputFits(o))
    && |memo| < 256 && |signature| == SIGNATURE_SIZE
  }

  /** Transfer.serialize after the type byte. */
  function EncodeTransfer(tx: Transaction): Bytes
    requires tx.Transfer?
  {
    tx.publicKey + (Big(tx.nonce, 8) + (Big(tx.fee, 8) + EncodePayload(tx.outputs, tx.memo, tx.signature)))
  }

  function EncodeCoinbase(tx: Transaction): Bytes
    requires tx.Coinbase?
  {
    Big(tx.height, 8) + (Big(tx.address, PAYLOAD_SIZE) + (Big(tx.amount, 8) + EncodeVar8(tx.memo)))
  }

  /** The encoding after version and network id. */
  function EncodeTyped(tx: Transaction): Bytes {
    if tx.Transfer? then Big(TYPE_TRANSFER, 1) + EncodeTransfer(tx) else Big(TYPE_COINBASE, 1) + EncodeCoinbase(tx)
  }

  function EncodeTx(tx: Transaction): Bytes {
    Big(TX_VERSION, 1) + (Big(tx.networkId, 1) + EncodeTyped(tx))
  }

  // --- one encoding per object -----------------------------------------------------------------------------

  lemma PeelOutput(a: Output, x: Bytes, b: Output, y: Bytes)
    requires OutputFits(a) && OutputFits(b) && EncodeOutput(a) + x == EncodeOutput(b) + y
    ensures a == b && x == y
  {
    Associate(Big(a.address, PAYLOAD_SIZE), Big(a.amount, 8), x);
    Associate(Big(b.address, PAYLOAD_SIZE), Big(b.amount, 8), y);
    PeelBig(a.address, Big(a.amount, 8) + x, b.address, Big(b.amount, 8) + y, PAYLOAD_SIZE);
    PeelBig(a.amount, x, b.amount, y, 8);
  }

  lemma Associate(a: Bytes, b: Bytes, c: Bytes)
    ensures (a + b) + c == a + (b + c)
  {
  }

  lemma {:induction false} PeelOutputs(a: seq<Output>, x: Bytes, b: seq<Output>, y: Bytes)
    requires (forall o :: o in a ==> OutputFits(o)) && (forall o :: o in b ==> OutputFits(o))
    requires |a| == |b| && EncodeOutputs(a) + x == EncodeOutputs(b) + y
    ensures a == b && x == y
  {
    hide OutputFits, EncodeOutput;
    if a != [] {
      Associate(EncodeOutput(a[0]), EncodeOutputs(a[1..]), x);
      Associate(EncodeOutput(b[0]), EncodeOutputs(b[1..]), y);
      PeelOutput(a[0], EncodeOutputs(a[1..]) + x, b[0], EncodeOutputs(b[1..]) + y);
      PeelOutputs(a[1..], x, b[1..], y);
      assert a == [a[0]] + a[1..] && b == [b[0]] + b[1..];
    } else {
      assert EncodeOutputs(a) + x == x && EncodeOutputs(b) + y == y;
    }
  }

  lemma PeelVar8(a: Bytes, x: Bytes, b: Bytes, y: Bytes)
    requires |a| < 256 && |b| < 256 && EncodeVar8(a) + x == EncodeVar8(b) + y
    ensures a == b && x == y
  {
    assert Pow256(1) == 256 * Pow256(0);
    Associate(Big(|a|, 1), a, x);
    Associate(Big(|b|, 1), b, y);
    PeelBig(|a|, a + x, |b|, b + y, 1);
    Peel(a, x, b, y);
  }

  lemma PeelPayload(a: seq<Output>, am: Bytes, asig: Bytes, x: Bytes, b: seq<Output>, bm: Bytes, bsig: Bytes, y: Bytes)
    requires PayloadFits(a, am, asig) && PayloadFits(b, bm, bsig)
    requires EncodePayload(a, am, asig) + x == EncodePayload(b, bm, bsig) + y
    ensures a == b && am == bm && asig == bsig && x == y
  {
    hide Big, EncodeOutputs, EncodeVar8, Pow256, OutputFits;
    var a2, b2 := EncodeVar8(am) + asig, EncodeVar8(bm) + bsig;
    var a1, b1 := EncodeOutputs(a) + a2, EncodeOutputs(b) + b2;
    Associate(Big(|a|, 1), a1, x);
    Associate(Big(|b|, 1), b1, y);
    PeelBig(|a|, a1 + x, |b|, b1 + y, 1);
    Associate(EncodeOutputs(a), a2, x);
    Associate(EncodeOutputs(b), b2, y);
    PeelOutputs(a, a2 + x, b, b2 + y);
    Associate(EncodeVar8(am), asig, x);
    Associate(EncodeVar8(bm), bsig, y);
    PeelVar8(am, asig + x, bm, bsig + y);
    Peel(asig, x, bsig, y);
  }

  lemma OneByte()
    ensures Pow256(1) == 256
  {
    assert Pow256(1) == 256 * Pow256(0);
  }

  lemma NothingStarts(data: Bytes, pos: nat)
    ensures pos <= |data| ==> StartsAt(data, pos, [])
  {
  }

  lemma PeelTransfer(a: Transaction, x: Bytes, b: Transaction, y: Bytes)
    requires a.Transfer? && b.Transfer? && TxFits(a) && TxFits(b) && a.networkId == b.networkId
    requires EncodeTransfer(a) + x == EncodeTransfer(b) + y
    ensures a == b && x == y
  {
    hide Big, EncodePayload, PayloadFits, Pow256;
    var a3, b3 := EncodePayload(a.outputs, a.memo, a.signature), EncodePayload(b.outputs, b.memo, b.signature);
    var a2, b2 := Big(a.fee, 8) + a3, Big(b.fee, 8) + b3;
    var a1, b1 := Big(a.nonce, 8) + a2, Big(b.nonce, 8) + b2;
    Associate(a.publicKey, a1, x);
    Associate(b.publicKey, b1, y);
    Peel(a.publicKey, a1 + x, b.publicKey, b1 + y);
    Associate(Big(a.nonce, 8), a2, x);
    Associate(Big(b.nonce, 8), b2, y);
    PeelBig(a.nonce, a2 + x, b.nonce, b2 + y, 8);
    Associate(Big(a.fee, 8), a3, x);
    Associate(Big(b.fee, 8), b3, y);
    PeelBig(a.fee, a3 + x, b.fee, b3 + y, 8);
    PeelPayload(a.outputs, a.memo, a.signature, x, b.outputs, b.memo, b.signature, y);
  }

  lemma PeelCoinbase(a: Transaction, x: Bytes, b: Transaction, y: Bytes)
    requires a.Coinbase? && b.Coinbase? && TxFits(a) && TxFits(b) && a.networkId == b.networkId
    requires EncodeCoinbase(a) + x == EncodeCoinbase(b) + y
    ensures a == b && x == y
  {
    hide Big, EncodeVar8, Pow256;
    var a3, b3 := Big(a.amount, 8) + EncodeVar8(a.memo), Big(b.amount, 8) + EncodeVar8(b.memo);
    var a2, b2 := Big(a.address, PAYLOAD_SIZE) + a3, Big(b.address, PAYLOAD_SIZE) + b3;
    Associate(Big(a.height, 8), a2, x);
    Associate(Big(b.height, 8), b2, y);
    PeelBig(a.height, a2 + x, b.height, b2 + y, 8);
    Associate(Big(a.address, PAYLOAD_SIZE), a3, x);
    Associate(Big(b.address, PAYLOAD_SIZE), b3, y);
    PeelBig(a.address, a3 + x, b.address, b3 + y, PAYLOAD_SIZE);
    Associate(Big(a.amount, 8), EncodeVar8(a.memo), x);
    Associate(Big(b.amount, 8), EncodeVar8(b.memo), y);
    PeelBig(a.amount, EncodeVar8(a.memo) + x, b.amount, EncodeVar8(b.memo) + y, 8);
    PeelVar8(a.memo, x, b.memo, y);
  }

  /** No two transactions have encodings that start the same data: an encoding says where it ends. */
  lemma PeelTx(a: Transaction, x: Bytes, b: Transaction, y: Bytes)
    requires TxFits(a) && TxFits(b) && EncodeTx(a) + x == EncodeTx(b) + y
    ensures a == b && x == y
  {
    hide Big, Pow256, EncodeTransfer, EncodeCoinbase, BodyFits;
    OneByte();
    var a2, b2 := Big(a.networkId, 1) + EncodeTyped(a), Big(b.networkId, 1) + EncodeTyped(b);
    Associate(Big(TX_VERSION, 1), a2, x);
    Associate(Big(TX_VERSION, 1), b2, y);
    PeelBig(TX_VERSION, a2 + x, TX_VERSION, b2 + y, 1);
    Associate(Big(a.networkId, 1), EncodeTyped(a), x);
    Associate(Big(b.networkId, 1), EncodeTyped(b), y);
    PeelBig(a.networkId, EncodeTyped(a) + x, b.networkId, EncodeTyped(b) + y, 1);
    var ta := if a.Transfer? then TYPE_TRANSFER else TYPE_COINBASE;
    var ea := if a.Transfer? then EncodeTransfer(a) else EncodeCoinbase(a);
    var tb := if b.Transfer? then TYPE_TRANSFER else TYPE_COINBASE;
    var eb := if b.Transfer? then EncodeTransfer(b) else EncodeCoinbase(b);
    Associate(Big(ta, 1), ea, x);
    Associate(Big(tb, 1), eb, y);
    PeelBig(ta, ea + x, tb, eb + y, 1);
    if a.Transfer? { PeelTransfer(a, x, b, y); } else { PeelCoinbase(a, x, b, y); }
  }

  // --- sizes ------------------------------------------------------------------------------------------------

  lemma {:induction false} OutputsSize(outputs: seq<Output>)
    ensures |EncodeOutputs(outputs)| == 29 * |outputs|
  {
    if outputs != [] { OutputsSize(outputs[1..]); }
  }

  /** The size the other modules count with is the encoded length. */
  lemma TxSizeIsLength(tx: Transaction)
    requires TxFits(tx)
    ensures |EncodeTx(tx)| == TxSize(tx)
  {
    if tx.Transfer? { OutputsSize(tx.outputs); }
  }

  // --- reading ----------------------------------------------------------------------------------------------
  // `want` stands for any object whose encoding the data goes on with: the reader must return it.

  lemma SnocOutputs(outputs: seq<Output>, o: Output)
    ensures EncodeOutputs(outputs + [o]) == EncodeOutputs(outputs) + EncodeOutput(o)
  {
    if outputs == [] {
      assert [o][1..] == [];
    } else {
      assert (outputs + [o])[1..] == outputs[1..] + [o];
      SnocOutputs(outputs[1..], o);
      Associate(EncodeOutput(outputs[0]), EncodeOutputs(outputs[1..]), EncodeOutput(o));
    }
  }

  method ReadOutput(r: Reader, ghost want: Option<Output>, ghost tail: Bytes) returns (o: Result<Output>)
    requires r.Valid()
    requires want.Some? ==> OutputFits(want.value) && StartsAt(r.data, r.pos, EncodeOutput(want.value) + tail)
    modifies r
    ensures r.Valid()
    ensures o.Ok? ==>
      OutputFits(o.value) && r.pos == old(r.pos) + 29 && StartsAt(r.data, old(r.pos), EncodeOutput(o.value))
    ensures want.Some? ==> o == Ok(want.value) && StartsAt(r.data, r.pos, tail)
  {
    ghost var start := r.pos;
    if want.Some? {
      Splits(r.data, start, EncodeOutput(want.value), tail);
      Splits(r.data, start, Big(want.value.address, PAYLOAD_SIZE), Big(want.value.amount, 8));
    }
    var address :- r.Uint(PAYLOAD_SIZE);
    var amount :- r.Uint(8);
    Joins(r.data, start, Big(address, PAYLOAD_SIZE), Big(amount, 8));
    if want.Some? {
      ReadsBack(r.data, start, address, want.value.address, PAYLOAD_SIZE);
      ReadsBack(r.data, start + PAYLOAD_SIZE, amount, want.value.amount, 8);
    }
    o := Ok(Output(address, amount));
  }

  method ReadOutputs(r: Reader, count: nat, ghost want: Option<seq<Output>>, ghost tail: Bytes)
    returns (outputs: Result<seq<Output>>)
    requires r.Valid()
    requires want.Some? ==> |want.value| == count && forall o :: o in want.value ==> OutputFits(o)
    requires want.Some? ==> StartsAt(r.data, r.pos, EncodeOutputs(want.value) + tail)
    modifies r
    ensures r.Valid()
    ensures outputs.Ok? ==>
      && |outputs.value| == count && (forall o :: o in outputs.value ==> OutputFits(o))
      && r.pos == old(r.pos) + |EncodeOutputs(outputs.value)| &&
        StartsAt(r.data, old(r.pos), EncodeOutputs(outputs.value))
    ensures want.Some? ==> outputs == Ok(want.value) && StartsAt(r.data, r.pos, tail)
  {
    hide OutputFits, EncodeOutput, Pow256, StartsAt;
    NothingStarts(r.data, r.pos);
    ghost var start := r.pos;
    var list: seq<Output> := [];
    for i := 0 to count
      invariant r.Valid() && |list| == i && forall o :: o in list ==> OutputFits(o)
      invariant r.pos == start + |EncodeOutputs(list)| && StartsAt(r.data, start, EncodeOutputs(list))
      invariant want.Some? ==> list == want.value[..i] && StartsAt(r.data, r.pos, EncodeOutputs(want.value[i..]) + tail)
    {
      ghost var at := r.pos;
      if want.Some? {
        assert want.value[i..][1..] == want.value[i + 1..] && want.value[i] in want.value;
        Associate(EncodeOutput(want.value[i]), EncodeOutputs(want.value[i + 1..]), tail);
      }
      var o :- ReadOutput(r, if want.Some? then Some(want.value[i]) else None,
                          if want.Some? then EncodeOutputs(want.value[i + 1..]) + tail else []);
      Joins(r.data, start, EncodeOutputs(list), EncodeOutput(o));
      SnocOutputs(list, o);
      OutputSize(o);
      list := list + [o];
    }
    if want.Some? {
      assert want.value[count..] == [] && want.value[..count] == want.value && EncodeOutputs([]) + tail == tail;
    }
    outputs := Ok(list);
  }

  lemma OutputSize(o: Output)
    ensures |EncodeOutput(o)| == 29
  {
  }

  method ReadPayload(r: Reader, ghost want: Option<(seq<Output>, Bytes, Bytes)>)
    returns (tx: Result<(seq<Output>, Bytes, Bytes)>)
    requires r.Valid()
    requires want.Some? ==> PayloadFits(want.value.0, want.value.1, want.value.2)
    requires want.Some? ==> StartsAt(r.data, r.pos, EncodePayload(want.value.0, want.value.1, want.value.2))
    modifies r
    ensures r.Valid()
    ensures tx.Ok? ==> PayloadFits(tx.value.0, tx.value.1, tx.value.2)
    ensures tx.Ok? ==> r.pos == old(r.pos) + |EncodePayload(tx.value.0, tx.value.1, tx.value.2)|
    ensures tx.Ok? ==> StartsAt(r.data, old(r.pos), EncodePayload(tx.value.0, tx.value.1, tx.value.2))
    ensures want.Some? ==> tx == Ok(want.value)
  {
    hide Big, EncodeOutputs, EncodeOutput, Pow256, OutputFits, StartsAt;
    ghost var start := r.pos;
    ghost var w := if want.Some? then want.value else ([], [], []);
    ghost var w2 := EncodeVar8(w.1) + w.2;
    if want.Some? { Splits(r.data, start, Big(|w.0|, 1), EncodeOutputs(w.0) + w2); }
    var count :- r.Uint(1);
    ghost var p1 := r.pos;
    if want.Some? { ReadsBack(r.data, start, count, |w.0|, 1); }
    var outputs :- ReadOutputs(r, count, if want.Some? then Some(w.0) else None, w2);
    ghost var p2 := r.pos;
    if want.Some? { Splits(r.data, p2, EncodeVar8(w.1), w.2); }
    var memo :- r.Var8();
    Joins(r.data, p2, Big(|memo|, 1), memo);
    if want.Some? { SameVar8(r.data, p2, memo, w.1); }
    var signature :- r.Take(SIGNATURE_SIZE);
    Joins(r.data, p2, EncodeVar8(memo), signature);
    Joins(r.data, p1, EncodeOutputs(outputs), EncodeVar8(memo) + signature);
    Joins(r.data, start, Big(|outputs|, 1), EncodeOutputs(outputs) + (EncodeVar8(memo) + signature));
    tx := Ok((outputs, memo, signature));
  }

  method ReadTransfer(r: Reader, networkId: nat, ghost want: Option<Transaction>) returns (tx: Result<Transaction>)
    requires r.Valid() && networkId < Pow256(1)
    requires want.Some? ==>
      && want.value.Transfer? && TxFits(want.value) && want.value.networkId == networkId
      && StartsAt(r.data, r.pos, EncodeTransfer(want.value))
    modifies r
    ensures r.Valid()
    ensures tx.Ok? ==>
      && tx.value.Transfer? && tx.value.networkId == networkId && TxFits(tx.value)
      && r.pos == old(r.pos) + |EncodeTransfer(tx.value)| && StartsAt(r.data, old(r.pos), EncodeTransfer(tx.value))
    ensures want.Some? ==> tx == Ok(want.value)
  {
    hide Big, EncodePayload, PayloadFits, Pow256;
    ghost var start := r.pos;
    ghost var w := if want.Some? then want.value else Transfer(0, [], 0, 0, [], [], []);
    ghost var w3 := EncodePayload(w.outputs, w.memo, w.signature);
    ghost var w2 := Big(w.fee, 8) + w3;
    if want.Some? { Splits(r.data, start, w.publicKey, Big(w.nonce, 8) + w2); }
    var key :- r.Take(KEY_SIZE);
    ghost var p1 := r.pos;
    if want.Some? { Splits(r.data, p1, Big(w.nonce, 8), w2); }
    var nonce :- r.Uint(8);
    ghost var p2 := r.pos;
    if want.Some? { ReadsBack(r.data, p1, nonce, w.nonce, 8); }
    if want.Some? { Splits(r.data, p2, Big(w.fee, 8), w3); }
    var fee :- r.Uint(8);
    ghost var p3 := r.pos;
    if want.Some? { ReadsBack(r.data, p2, fee, w.fee, 8); }
    var end :- ReadPayload(r, if want.Some? then Some((w.outputs, w.memo, w.signature)) else None);
    ghost var t3 := EncodePayload(end.0, end.1, end.2);
    Joins(r.data, p2, Big(fee, 8), t3);
    Joins(r.data, p1, Big(nonce, 8), Big(fee, 8) + t3);
    Joins(r.data, start, key, Big(nonce, 8) + (Big(fee, 8) + t3));
    tx := Ok(Transfer(networkId, key, nonce, fee, end.0, end.1, end.2));
  }

  method ReadCoinbase(r: Reader, networkId: nat, ghost want: Option<Transaction>) returns (tx: Result<Transaction>)
    requires r.Valid() && networkId < Pow256(1)
    requires want.Some? ==>
      && want.value.Coinbase? && TxFits(want.value) && want.value.networkId == networkId
      && StartsAt(r.data, r.pos, EncodeCoinbase(want.value))
    modifies r
    ensures r.Valid()
    ensures tx.Ok? ==>
      && tx.value.Coinbase? && tx.value.networkId == networkId && TxFits(tx.value)
      && r.pos == old(r.pos) + |EncodeCoinbase(tx.value)| && StartsAt(r.data, old(r.pos), EncodeCoinbase(tx.value))
    ensures want.Some? ==> tx == Ok(want.value)
  {
    hide Big, Pow256;
    ghost var start := r.pos;
    ghost var w := if want.Some? then want.value else Coinbase(0, 0, 0, 0, []);
    ghost var w3 := Big(w.amount, 8) + EncodeVar8(w.memo);
    ghost var w2 := Big(w.address, PAYLOAD_SIZE) + w3;
    if want.Some? { Splits(r.data, start, Big(w.height, 8), w2); }
    var height :- r.Uint(8);
    ghost var p1 := r.pos;
    if want.Some? { ReadsBack(r.data, start, height, w.height, 8); }
    if want.Some? { Splits(r.data, p1, Big(w.address, PAYLOAD_SIZE), w3); }
    var address :- r.Uint(PAYLOAD_SIZE);
    ghost var p2 := r.pos;
    if want.Some? { ReadsBack(r.data, p1, address, w.address, PAYLOAD_SIZE); }
    if want.Some? { Splits(r.data, p2, Big(w.amount, 8), EncodeVar8(w.memo)); }
    var amount :- r.Uint(8);
    ghost var p3 := r.pos;
    if want.Some? { ReadsBack(r.data, p2, amount, w.amount, 8); }
    var memo :- r.Var8();
    Joins(r.data, p3, Big(|memo|, 1), memo);
    if want.Some? { SameVar8(r.data, p3, memo, w.memo); }
    Joins(r.data, p2, Big(amount, 8), EncodeVar8(memo));
    Joins(r.data, p1, Big(address, PAYLOAD_SIZE), Big(amount, 8) + EncodeVar8(memo));
    Joins(r.data, start, Big(height, 8), Big(address, PAYLOAD_SIZE) + (Big(amount, 8) + EncodeVar8(memo)));
    tx := Ok(Coinbase(networkId, height, address, amount, memo));
  }

  method ReadTyped(r: Reader, networkId: nat, ghost want: Option<Transaction>) returns (tx: Result<Transaction>)
    requires r.Valid() && networkId < Pow256(1)
    requires want.Some? ==>
      TxFits(want.value) && want.value.networkId == networkId && StartsAt(r.data, r.pos, EncodeTyped(want.value))
    modifies r
    ensures r.Valid()
    ensures tx.Ok? ==>
      && tx.value.networkId == networkId && TxFits(tx.value)
      && r.pos == old(r.pos) + |EncodeTyped(tx.value)| && StartsAt(r.data, old(r.pos), EncodeTyped(tx.value))
    ensures want.Some? ==> tx == Ok(want.value)
  {
    hide Big, Pow256, EncodeTransfer, EncodeCoinbase, BodyFits, StartsAt;
    OneByte();
    ghost var start := r.pos;
    ghost var kind := if want.Some? && want.value.Transfer? then TYPE_TRANSFER else TYPE_COINBASE;
    if want.Some? {
      Splits(r.data, start, Big(kind, 1),
             if want.value.Transfer? then EncodeTransfer(want.value) else EncodeCoinbase(want.value));
    }
    var txType :- r.Uint(1);
    if want.Some? { ReadsBack(r.data, start, txType, kind, 1); }
    if txType == TYPE_TRANSFER {
      tx := ReadTransfer(r, networkId, want);
      if tx.Ok? { Joins(r.data, start, Big(TYPE_TRANSFER, 1), EncodeTransfer(tx.value)); }
    } else if txType == TYPE_COINBASE {
      tx := ReadCoinbase(r, networkId, want);
      if tx.Ok? { Joins(r.data, start, Big(TYPE_COINBASE, 1), EncodeCoinbase(tx.value)); }
    } else {
      tx := Err(BadData);
    }
  }

  /** tx.read_transaction: what it reads is the one encoding of what it returns, and an encoding is
      never misread or refused. */
  method ReadTransaction(r: Reader, ghost want: Option<Transaction>) returns (tx: Result<Transaction>)
    requires r.Valid()
    requires want.Some? ==> TxFits(want.value) && StartsAt(r.data, r.pos, EncodeTx(want.value))
    modifies r
    ensures r.Valid()
    ensures tx.Ok? ==>
      TxFits(tx.value) && r.pos == old(r.pos) + |EncodeTx(tx.value)| && StartsAt(r.data, old(r.pos), EncodeTx(tx.value))
    ensures want.Some? ==> tx == Ok(want.value)
  {
    hide Big, Pow256, EncodeTyped, EncodeTransfer, EncodeCoinbase, BodyFits;
    OneByte();
    ghost var start := r.pos;
    if want.Some? { SplitsTyped(r.data, start, want.value); }
    var version :- r.Uint(1);
    if want.Some? { ReadsBack(r.data, start, version, TX_VERSION, 1); }
    if version != TX_VERSION { return Err(BadData); }
    var networkId :- r.Uint(1);
    if want.Some? { ReadsBack(r.data, start + 1, networkId, want.value.networkId, 1); }
    tx := ReadTyped(r, networkId, want);
    if tx.Ok? { JoinsTyped(r.data, start, tx.value); }
  }

  lemma SplitsTyped(data: Bytes, start: nat, tx: Transaction)
    requires StartsAt(data, start, EncodeTx(tx))
    ensures StartsAt(data, start, Big(TX_VERSION, 1)) && StartsAt(data, start + 1, Big(tx.networkId, 1))
    ensures StartsAt(data, start + 2, EncodeTyped(tx))
  {
    hide Big, EncodeTransfer, EncodeCoinbase;
    Splits(data, start, Big(TX_VERSION, 1), Big(tx.networkId, 1) + EncodeTyped(tx));
    Splits(data, start + 1, Big(tx.networkId, 1), EncodeTyped(tx));
  }

  lemma JoinsTyped(data: Bytes, start: nat, tx: Transaction)
    requires StartsAt(data, start, Big(TX_VERSION, 1)) && StartsAt(data, start + 1, Big(tx.networkId, 1))
    requires StartsAt(data, start + 2, EncodeTyped(tx))
    ensures StartsAt(data, start, EncodeTx(tx)) && |EncodeTx(tx)| == 2 + |EncodeTyped(tx)|
  {
    hide Big, EncodeTransfer, EncodeCoinbase;
    Joins(data, start + 1, Big(tx.networkId, 1), EncodeTyped(tx));
    Joins(data, start, Big(TX_VERSION, 1), Big(tx.networkId, 1) + EncodeTyped(tx));
  }

  lemma SameVar8(data: Bytes, pos: nat, a: Bytes, b: Bytes)
    requires |a| < 256 && |b| < 256 && StartsAt(data, pos, EncodeVar8(a)) && StartsAt(data, pos, EncodeVar8(b))
    ensures a == b
  {
    PeelVar8(a, data[pos + 1 + |a|..], b, data[pos + 1 + |b|..]) by {
      assert EncodeVar8(a) + data[pos + 1 + |a|..] == data[pos..];
      assert EncodeVar8(b) + data[pos + 1 + |b|..] == data[pos..];
    }
  }

  /** tx.transaction_from_bytes: succeeds exactly on encodings, and gives back what was encoded. */
  method TransactionFromBytes(data: Bytes, ghost want: Option<Transaction>) returns (tx: Result<Transaction>)
    requires want.Some? ==> TxFits(want.value) && data == EncodeTx(want.value)
    ensures tx.Ok? ==> TxFits(tx.value) && data == EncodeTx(tx.value)
    ensures want.Some? ==> tx == Ok(want.value)
  {
    hide EncodeTx, TxFits;
    var r := new Reader(data);
    if want.Some? { assert data[0..|data|] == data; }
    var read :- ReadTransaction(r, want);
    var _ :- r.ExpectEnd();
    assert data[0..|data|] == data;
    tx := Ok(read);
  }

  // --- writing -----------------------------------------------------------------------------------------------

  method WriteOutputs(w: Writer, outputs: seq<Output>) returns (s: Status)
    modifies w
    ensures s.Done? <==> forall o :: o in outputs ==> OutputFits(o)
    ensures s.Done? ==> w.Value() == old(w.Value()) + EncodeOutputs(outputs)
  {
    hide Pow256, Big, EncodeOutput;
    ghost var before := w.Value();
    assert before + EncodeOutputs([]) == before;
    for i := 0 to |outputs|
      invariant forall j :: 0 <= j < i ==> OutputFits(outputs[j])
      invariant w.Value() == before + EncodeOutputs(outputs[..i])
    {
      assert outputs[..i + 1] == outputs[..i] + [outputs[i]] && outputs[i] in outputs;
      SnocOutputs(outputs[..i], outputs[i]);
      s := WriteOutput(w, outputs[i]);
      if s.Refused? { return; }
      Associate(before, EncodeOutputs(outputs[..i]), EncodeOutput(outputs[i]));
    }
    assert outputs[..|outputs|] == outputs;
    s := Done;
  }

  method WriteOutput(w: Writer, o: Output) returns (s: Status)
    modifies w
    ensures s.Done? <==> OutputFits(o)
    ensures s.Done? ==> w.Value() == old(w.Value()) + EncodeOutput(o)
  {
    hide Pow256, Big;
    s := w.Uint(o.address, PAYLOAD_SIZE);
    if s.Done? { s := w.Uint(o.amount, 8); }
  }

  lemma FourParts(v: Bytes, a: Bytes, b: Bytes, c: Bytes, d: Bytes)
    ensures (((v + a) + b) + c) + d == v + (a + (b + (c + d)))
  {
    Associate(v, a, b);
    Associate(v, a + b, c);
    Associate(v, a + b + c, d);
    Associate(a, b, c);
    Associate(a, b + c, d);
    Associate(b, c, d);
  }

  method WritePayload(w: Writer, outputs: seq<Output>, memo: Bytes, signature: Bytes) returns (s: Status)
    modifies w
    ensures s.Done? <==> PayloadFits(outputs, memo, signature)
    ensures s.Done? ==> w.Value() == old(w.Value()) + EncodePayload(outputs, memo, signature)
  {
    hide Pow256, Big, EncodeOutputs, OutputFits;
    ghost var v := w.Value();
    s := w.Uint(|outputs|, 1);
    if s.Refused? { return; }
    s := WriteOutputs(w, outputs);
    if s.Refused? { return; }
    s := w.Var8(memo);
    if s.Refused? { return; }
    s := w.Fixed(signature, SIGNATURE_SIZE);
    FourParts(v, Big(|outputs|, 1), EncodeOutputs(outputs), EncodeVar8(memo), signature);
  }

  /** Transfer.serialize after the type byte. */
  method WriteTransfer(w: Writer, tx: Transaction) returns (s: Status)
    requires tx.Transfer?
    modifies w
    ensures s.Done? <==> BodyFits(tx)
    ensures s.Done? ==> w.Value() == old(w.Value()) + EncodeTransfer(tx)
  {
    hide Pow256, Big, EncodePayload, PayloadFits;
    ghost var v := w.Value();
    s := w.Fixed(tx.publicKey, KEY_SIZE);
    if s.Refused? { return; }
    s := w.Uint(tx.nonce, 8);
    if s.Refused? { return; }
    s := w.Uint(tx.fee, 8);
    if s.Refused? { return; }
    s := WritePayload(w, tx.outputs, tx.memo, tx.signature);
    FourParts(v, tx.publicKey, Big(tx.nonce, 8), Big(tx.fee, 8), EncodePayload(tx.outputs, tx.memo, tx.signature));
  }

  /** Coinbase.serialize after the type byte. */
  method WriteCoinbase(w: Writer, tx: Transaction) returns (s: Status)
    requires tx.Coinbase?
    modifies w
    ensures s.Done? <==> BodyFits(tx)
    ensures s.Done? ==> w.Value() == old(w.Value()) + EncodeCoinbase(tx)
  {
    hide Pow256, Big;
    ghost var v := w.Value();
    s := w.Uint(tx.height, 8);
    if s.Refused? { return; }
    s := w.Uint(tx.address, PAYLOAD_SIZE);
    if s.Refused? { return; }
    s := w.Uint(tx.amount, 8);
    if s.Refused? { return; }
    s := w.Var8(tx.memo);
    FourParts(v, Big(tx.height, 8), Big(tx.address, PAYLOAD_SIZE), Big(tx.amount, 8), EncodeVar8(tx.memo));
  }

  /** Transfer.serialize and Coinbase.serialize: the one encoding, or a refusal if a field does not fit. */
  method Serialize(tx: Transaction) returns (r: Result<Bytes>)
    ensures r == if TxFits(tx) then Ok(EncodeTx(tx)) else Err(DoesNotFit)
  {
    hide Big, EncodeTransfer, EncodeCoinbase, BodyFits;
    assert Pow256(1) == 256 * Pow256(0);
    var w := new Writer();
    var s := w.Uint(TX_VERSION, 1);
    s := w.Uint(tx.networkId, 1);
    if s.Refused? { return Err(DoesNotFit); }
    s := w.Uint(if tx.Transfer? then TYPE_TRANSFER else TYPE_COINBASE, 1);
    if tx.Transfer? {
      s := WriteTransfer(w, tx);
    } else {
      s := WriteCoinbase(w, tx);
    }
    if s.Refused? { return Err(DoesNotFit); }
    FourParts([], Big(TX_VERSION, 1), Big(tx.networkId, 1),
              Big(if tx.Transfer? then TYPE_TRANSFER else TYPE_COINBASE, 1),
              if tx.Transfer? then EncodeTransfer(tx) else EncodeCoinbase(tx));
    assert [] + EncodeTx(tx) == EncodeTx(tx);
    r := Ok(w.Value());
  }

  // --- headers and blocks -----------------------------------------------------------------------------------

  ghost predicate HeaderFits(h: WireHeader) {
    && h.version < Pow256(4) && h.height < Pow256(8) && h.timestamp < Pow256(8)
    && h.target < Pow256(32) && h.nonce < Pow256(8)
    && |h.prevId| == 32 && |h.merkleRoot| == 32 && |h.snapshotRoot| == 32
  }

  function EncodeRoots(h: WireHeader): Bytes {
    h.prevId + (h.merkleRoot + h.snapshotRoot)
  }

  function EncodeMining(h: WireHeader): Bytes {
    Big(h.timestamp, 8) + (Big(h.target, 32) + Big(h.nonce, 8))
  }

  function EncodeHeader(h: WireHeader): Bytes {
    Big(h.version, 4) + (Big(h.height, 8) + (EncodeRoots(h) + EncodeMining(h)))
  }

  /** Every header takes 156 bytes. */
  lemma HeaderSizeIsLength(h: WireHeader)
    requires HeaderFits(h)
    ensures |EncodeHeader(h)| == HEADER_SIZE
  {
  }

  lemma PeelMining(a: WireHeader, x: Bytes, b: WireHeader, y: Bytes)
    requires HeaderFits(a) && HeaderFits(b) && EncodeMining(a) + x == EncodeMining(b) + y
    ensures a.timestamp == b.timestamp && a.target == b.target && a.nonce == b.nonce && x == y
  {
    hide Big, Pow256;
    var a1, b1 := Big(a.target, 32) + Big(a.nonce, 8), Big(b.target, 32) + Big(b.nonce, 8);
    Associate(Big(a.timestamp, 8), a1, x);
    Associate(Big(b.timestamp, 8), b1, y);
    PeelBig(a.timestamp, a1 + x, b.timestamp, b1 + y, 8);
    Associate(Big(a.target, 32), Big(a.nonce, 8), x);
    Associate(Big(b.target, 32), Big(b.nonce, 8), y);
    PeelBig(a.target, Big(a.nonce, 8) + x, b.target, Big(b.nonce, 8) + y, 32);
    PeelBig(a.nonce, x, b.nonce, y, 8);
  }

  lemma PeelRoots(a: WireHeader, x: Bytes, b: WireHeader, y: Bytes)
    requires HeaderFits(a) && HeaderFits(b) && EncodeRoots(a) + x == EncodeRoots(b) + y
    ensures a.prevId == b.prevId && a.merkleRoot == b.merkleRoot && a.snapshotRoot == b.snapshotRoot && x == y
  {
    hide Pow256;
    Associate(a.prevId, a.merkleRoot + a.snapshotRoot, x);
    Associate(b.prevId, b.merkleRoot + b.snapshotRoot, y);
    Peel(a.prevId, a.merkleRoot + a.snapshotRoot + x, b.prevId, b.merkleRoot + b.snapshotRoot + y);
    Associate(a.merkleRoot, a.snapshotRoot, x);
    Associate(b.merkleRoot, b.snapshotRoot, y);
    Peel(a.merkleRoot, a.snapshotRoot + x, b.merkleRoot, b.snapshotRoot + y);
    Peel(a.snapshotRoot, x, b.snapshotRoot, y);
  }

  lemma PeelHeader(a: WireHeader, x: Bytes, b: WireHeader, y: Bytes)
    requires HeaderFits(a) && HeaderFits(b) && EncodeHeader(a) + x == EncodeHeader(b) + y
    ensures a == b && x == y
  {
    hide Big, EncodeRoots, EncodeMining;
    assert HeaderFits(a) && HeaderFits(b);
    var a2, b2 := EncodeRoots(a) + EncodeMining(a), EncodeRoots(b) + EncodeMining(b);
    var a1, b1 := Big(a.height, 8) + a2, Big(b.height, 8) + b2;
    Associate(Big(a.version, 4), a1, x);
    Associate(Big(b.version, 4), b1, y);
    PeelBig(a.version, a1 + x, b.version, b1 + y, 4);
    Associate(Big(a.height, 8), a2, x);
    Associate(Big(b.height, 8), b2, y);
    PeelBig(a.height, a2 + x, b.height, b2 + y, 8);
    Associate(EncodeRoots(a), EncodeMining(a), x);
    Associate(EncodeRoots(b), EncodeMining(b), y);
    PeelRoots(a, EncodeMining(a) + x, b, EncodeMining(b) + y);
    PeelMining(a, x, b, y);
  }

  /** block.read_header: any 156 bytes are a header, and its encoding is those bytes. */
  method ReadHeader(r: Reader) returns (h: Result<WireHeader>)
    requires r.Valid()
    modifies r
    ensures r.Valid() && (h.Ok? <==> old(r.pos) + HEADER_SIZE <= |r.data|)
    ensures h.Ok? ==>
      HeaderFits(h.value) && r.pos == old(r.pos) + HEADER_SIZE && StartsAt(r.data, old(r.pos), EncodeHeader(h.value))
  {
    hide Big, Pow256;
    ghost var p0 := r.pos;
    var version :- r.Uint(4);
    var height :- r.Uint(8);
    ghost var p2 := r.pos;
    var roots :- ReadRoots(r);
    ghost var p3 := r.pos;
    var mining :- ReadMining(r);
    var header := Header(version, height, roots.0, roots.1, roots.2, mining.0, mining.1, mining.2);
    Joins(r.data, p2, EncodeRoots(header), EncodeMining(header));
    Joins(r.data, p0 + 4, Big(height, 8), EncodeRoots(header) + EncodeMining(header));
    Joins(r.data, p0, Big(version, 4), Big(height, 8) + (EncodeRoots(header) + EncodeMining(header)));
    h := Ok(header);
  }

  method ReadRoots(r: Reader) returns (h: Result<(Bytes, Bytes, Bytes)>)
    requires r.Valid()
    modifies r
    ensures r.Valid() && (h.Ok? <==> old(r.pos) + 96 <= |r.data|)
    ensures h.Ok? ==>
      && |h.value.0| == 32 && |h.value.1| == 32 && |h.value.2| == 32 && r.pos == old(r.pos) + 96
      && StartsAt(r.data, old(r.pos), h.value.0 + (h.value.1 + h.value.2))
  {
    ghost var p0 := r.pos;
    var a :- r.Take(32);
    var b :- r.Take(32);
    var c :- r.Take(32);
    Joins(r.data, p0 + 32, b, c);
    Joins(r.data, p0, a, b + c);
    h := Ok((a, b, c));
  }

  method ReadMining(r: Reader) returns (h: Result<(nat, nat, nat)>)
    requires r.Valid()
    modifies r
    ensures r.Valid() && (h.Ok? <==> old(r.pos) + 48 <= |r.data|)
    ensures h.Ok? ==>
      && h.value.0 < Pow256(8) && h.value.1 < Pow256(32) && h.value.2 < Pow256(8) && r.pos == old(r.pos) + 48
      && StartsAt(r.data, old(r.pos), Big(h.value.0, 8) + (Big(h.value.1, 32) + Big(h.value.2, 8)))
  {
    hide Big, Pow256;
    ghost var p0 := r.pos;
    var timestamp :- r.Uint(8);
    var target :- r.Uint(32);
    var nonce :- r.Uint(8);
    Joins(r.data, p0 + 8, Big(target, 32), Big(nonce, 8));
    Joins(r.data, p0, Big(timestamp, 8), Big(target, 32) + Big(nonce, 8));
    h := Ok((timestamp, target, nonce));
  }

  /** block.header_from_bytes: exactly the 156-byte strings are headers. */
  method HeaderFromBytes(data: Bytes) returns (h: Result<WireHeader>)
    ensures h.Ok? <==> |data| == HEADER_SIZE
    ensures h.Ok? ==> HeaderFits(h.value) && data == EncodeHeader(h.value)
  {
    hide HeaderFits, EncodeHeader;
    var r := new Reader(data);
    var read :- ReadHeader(r);
    var _ :- r.ExpectEnd();
    assert data[0..|data|] == data;
    h := Ok(read);
    HeaderSizeIsLength(read);
  }

  function EncodeTxs(txs: seq<Transaction>): Bytes {
    if txs == [] then [] else EncodeTx(txs[0]) + EncodeTxs(txs[1..])
  }

  ghost predicate BlockFits(b: WireBlock) {
    HeaderFits(b.header) && |b.txs| < Pow256(4) && forall tx :: tx in b.txs ==> TxFits(tx)
  }

  function EncodeBlock(b: WireBlock): Bytes {
    EncodeHeader(b.header) + (Big(|b.txs|, 4) + EncodeTxs(b.txs))
  }

  lemma {:induction false} PeelTxs(a: seq<Transaction>, x: Bytes, b: seq<Transaction>, y: Bytes)
    requires (forall t :: t in a ==> TxFits(t)) && (forall t :: t in b ==> TxFits(t))
    requires |a| == |b| && EncodeTxs(a) + x == EncodeTxs(b) + y
    ensures a == b && x == y
  {
    hide TxFits, EncodeTx;
    if a != [] {
      Associate(EncodeTx(a[0]), EncodeTxs(a[1..]), x);
      Associate(EncodeTx(b[0]), EncodeTxs(b[1..]), y);
      PeelTx(a[0], EncodeTxs(a[1..]) + x, b[0], EncodeTxs(b[1..]) + y);
      PeelTxs(a[1..], x, b[1..], y);
      assert a == [a[0]] + a[1..] && b == [b[0]] + b[1..];
    } else {
      assert EncodeTxs(a) + x == x && EncodeTxs(b) + y == y;
    }
  }

  /** No two blocks share an encoding, nor does one's encoding start another's. */
  lemma PeelBlock(a: WireBlock, x: Bytes, b: WireBlock, y: Bytes)
    requires BlockFits(a) && BlockFits(b) && EncodeBlock(a) + x == EncodeBlock(b) + y
    ensures a == b && x == y
  {
    hide Big, EncodeHeader, EncodeTxs, HeaderFits, TxFits, Pow256;
    var a1, b1 := Big(|a.txs|, 4) + EncodeTxs(a.txs), Big(|b.txs|, 4) + EncodeTxs(b.txs);
    Associate(EncodeHeader(a.header), a1, x);
    Associate(EncodeHeader(b.header), b1, y);
    PeelHeader(a.header, a1 + x, b.header, b1 + y);
    Associate(Big(|a.txs|, 4), EncodeTxs(a.txs), x);
    Associate(Big(|b.txs|, 4), EncodeTxs(b.txs), y);
    PeelBig(|a.txs|, EncodeTxs(a.txs) + x, |b.txs|, EncodeTxs(b.txs) + y, 4);
    PeelTxs(a.txs, x, b.txs, y);
  }

  lemma {:induction false} TxsSize(txs: seq<Transaction>)
    requires forall t :: t in txs ==> TxFits(t)
    ensures |EncodeTxs(txs)| == SumSizes(txs)
  {
    hide TxFits, EncodeTx, TxSize;
    if txs != [] {
      var n := |txs| - 1;
      TxsSize(txs[..n]);
      SnocTxs(txs[..n], txs[n]);
      assert txs == txs[..n] + [txs[n]];
      TxSizeIsLength(txs[n]);
    }
  }

  lemma {:induction false} SnocTxs(txs: seq<Transaction>, t: Transaction)
    ensures EncodeTxs(txs + [t]) == EncodeTxs(txs) + EncodeTx(t)
  {
    hide EncodeTx;
    if txs == [] {
      assert [t][1..] == [];
    } else {
      assert (txs + [t])[1..] == txs[1..] + [t];
      SnocTxs(txs[1..], t);
      Associate(EncodeTx(txs[0]), EncodeTxs(txs[1..]), EncodeTx(t));
    }
  }

  /** The block size the rules limit is the encoded length. */
  lemma BlockSizeIsLength(b: WireBlock)
    requires BlockFits(b)
    ensures |EncodeBlock(b)| == HEADER_SIZE + 4 + SumSizes(b.txs)
  {
    hide HeaderFits, TxFits, EncodeHeader, EncodeTxs;
    HeaderSizeIsLength(b.header);
    TxsSize(b.txs);
  }

  method ReadTxs(r: Reader, count: nat, ghost want: Option<seq<Transaction>>) returns (txs: Result<seq<Transaction>>)
    requires r.Valid()
    requires want.Some? ==>
      |want.value| == count && (forall t :: t in want.value ==> TxFits(t)) &&
        StartsAt(r.data, r.pos, EncodeTxs(want.value))
    modifies r
    ensures r.Valid()
    ensures txs.Ok? ==>
      && |txs.value| == count && (forall t :: t in txs.value ==> TxFits(t))
      && r.pos == old(r.pos) + |EncodeTxs(txs.value)| && StartsAt(r.data, old(r.pos), EncodeTxs(txs.value))
    ensures want.Some? ==> txs == Ok(want.value)
  {
    hide TxFits, EncodeTx;
    ghost var start := r.pos;
    var list: seq<Transaction> := [];
    for i := 0 to count
      invariant r.Valid() && |list| == i && forall t :: t in list ==> TxFits(t)
      invariant r.pos == start + |EncodeTxs(list)| && StartsAt(r.data, start, EncodeTxs(list))
      invariant want.Some? ==> list == want.value[..i] && StartsAt(r.data, r.pos, EncodeTxs(want.value[i..]))
    {
      ghost var at := r.pos;
      if want.Some? {
        assert want.value[i..][1..] == want.value[i + 1..] && want.value[i] in want.value;
        Splits(r.data, at, EncodeTx(want.value[i]), EncodeTxs(want.value[i + 1..]));
      }
      var t :- ReadTransaction(r, if want.Some? then Some(want.value[i]) else None);
      Joins(r.data, start, EncodeTxs(list), EncodeTx(t));
      SnocTxs(list, t);
      list := list + [t];
    }
    if want.Some? { assert want.value[..count] == want.value; }
    txs := Ok(list);
  }

  /** block.block_from_bytes: succeeds exactly on the encodings of blocks, and gives back what was encoded. */
  method BlockFromBytes(data: Bytes, ghost want: Option<WireBlock>) returns (b: Result<WireBlock>)
    requires want.Some? ==> BlockFits(want.value) && data == EncodeBlock(want.value)
    ensures b.Ok? ==> BlockFits(b.value) && data == EncodeBlock(b.value)
    ensures want.Some? ==> b == Ok(want.value)
  {
    hide Big, EncodeHeader, EncodeTxs, HeaderFits, TxFits, Pow256;
    var r := new Reader(data);
    if want.Some? {
      assert data[0..|data|] == data;
      HeaderSizeIsLength(want.value.header);
      Splits(data, 0, EncodeHeader(want.value.header), Big(|want.value.txs|, 4) + EncodeTxs(want.value.txs));
      Splits(data, HEADER_SIZE, Big(|want.value.txs|, 4), EncodeTxs(want.value.txs));
    }
    var header :- ReadHeader(r);
    if want.Some? { SameHeader(data, header, want.value.header); }
    var count :- r.Uint(4);
    if want.Some? { ReadsBack(data, HEADER_SIZE, count, |want.value.txs|, 4); }
    var txs :- ReadTxs(r, count, if want.Some? then Some(want.value.txs) else None);
    HeaderSizeIsLength(header);
    Joins(data, HEADER_SIZE, Big(|txs|, 4), EncodeTxs(txs));
    Joins(data, 0, EncodeHeader(header), Big(|txs|, 4) + EncodeTxs(txs));
    var _ :- r.ExpectEnd();
    assert data[0..|data|] == data;
    b := Ok(WireBlock(header, txs));
  }

  lemma SameHeader(data: Bytes, a: WireHeader, b: WireHeader)
    requires HeaderFits(a) && HeaderFits(b) && StartsAt(data, 0, EncodeHeader(a)) && StartsAt(data, 0, EncodeHeader(b))
    ensures a == b
  {
    hide EncodeHeader, HeaderFits;
    HeaderSizeIsLength(a);
    HeaderSizeIsLength(b);
    assert EncodeHeader(a) + [] == EncodeHeader(b) + [];
    PeelHeader(a, [], b, []);
  }

  method WriteRoots(w: Writer, h: WireHeader) returns (s: Status)
    modifies w
    ensures s.Done? <==> |h.prevId| == 32 && |h.merkleRoot| == 32 && |h.snapshotRoot| == 32
    ensures s.Done? ==> w.Value() == old(w.Value()) + EncodeRoots(h)
  {
    ghost var v := w.Value();
    s := w.Fixed(h.prevId, 32);
    if s.Refused? { return; }
    s := w.Fixed(h.merkleRoot, 32);
    if s.Refused? { return; }
    s := w.Fixed(h.snapshotRoot, 32);
    FourParts(v, h.prevId, h.merkleRoot, h.snapshotRoot, []);
    assert h.snapshotRoot + [] == h.snapshotRoot;
  }

  method WriteMining(w: Writer, h: WireHeader) returns (s: Status)
    modifies w
    ensures s.Done? <==> h.timestamp < Pow256(8) && h.target < Pow256(32) && h.nonce < Pow256(8)
    ensures s.Done? ==> w.Value() == old(w.Value()) + EncodeMining(h)
  {
    hide Big, Pow256;
    ghost var v := w.Value();
    s := w.Uint(h.timestamp, 8);
    if s.Refused? { return; }
    s := w.Uint(h.target, 32);
    if s.Refused? { return; }
    s := w.Uint(h.nonce, 8);
    FourParts(v, Big(h.timestamp, 8), Big(h.target, 32), Big(h.nonce, 8), []);
    assert Big(h.nonce, 8) + [] == Big(h.nonce, 8);
  }

  /** BlockHeader.serialize */
  method SerializeHeader(h: WireHeader) returns (r: Result<Bytes>)
    ensures r == if HeaderFits(h) then Ok(EncodeHeader(h)) else Err(DoesNotFit)
  {
    hide Big, Pow256, EncodeRoots, EncodeMining;
    var w := new Writer();
    var s := w.Uint(h.version, 4);
    if s.Refused? { return Err(DoesNotFit); }
    s := w.Uint(h.height, 8);
    if s.Refused? { return Err(DoesNotFit); }
    s := WriteRoots(w, h);
    if s.Refused? { return Err(DoesNotFit); }
    s := WriteMining(w, h);
    if s.Refused? { return Err(DoesNotFit); }
    FourParts([], Big(h.version, 4), Big(h.height, 8), EncodeRoots(h), EncodeMining(h));
    assert [] + EncodeHeader(h) == EncodeHeader(h);
    r := Ok(w.Value());
  }

  /** Block.serialize */
  method SerializeBlock(b: WireBlock) returns (r: Result<Bytes>)
    ensures r == if BlockFits(b) then Ok(EncodeBlock(b)) else Err(DoesNotFit)
  {
    hide Big, Pow256, EncodeHeader, HeaderFits, EncodeTxs, TxFits, Join;
    var w := new Writer();
    var head := SerializeHeader(b.header);
    if head.Err? { return Err(DoesNotFit); }
    w.Raw(head.value);
    assert w.Value() == head.value by { assert [] + head.value == head.value; }
    var s := w.Uint(|b.txs|, 4);
    if s.Refused? { return Err(DoesNotFit); }
    s := WriteTxs(w, b.txs);
    if s.Refused? { return Err(DoesNotFit); }
    Associate(EncodeHeader(b.header), Big(|b.txs|, 4), EncodeTxs(b.txs));
    r := Ok(w.Value());
  }

  method WriteTxs(w: Writer, txs: seq<Transaction>) returns (s: Status)
    modifies w
    ensures s.Done? <==> forall tx :: tx in txs ==> TxFits(tx)
    ensures s.Done? ==> w.Value() == old(w.Value()) + EncodeTxs(txs)
  {
    hide EncodeTx, TxFits, Join;
    ghost var v := w.Value();
    assert v + EncodeTxs([]) == v;
    for i := 0 to |txs|
      invariant forall j :: 0 <= j < i ==> TxFits(txs[j])
      invariant w.Value() == v + EncodeTxs(txs[..i])
    {
      var one := Serialize(txs[i]);
      assert txs[i] in txs;
      if one.Err? { return Refused; }
      w.Raw(one.value);
      SnocTxs(txs[..i], txs[i]);
      assert txs[..i + 1] == txs[..i] + [txs[i]];
      Associate(v, EncodeTxs(txs[..i]), EncodeTx(txs[i]));
    }
    assert txs[..|txs|] == txs;
    s := Done;
  }
}
