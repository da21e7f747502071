/**
 encoding.py: fixed-width big-endian integers and length-prefixed bytes, a Writer that appends and a
 Reader that advances.
 */
module Encoding {
  import opened Types

  function Pow256(n: nat): (r: nat)
    ensures r >= 1
  {
    if n == 0 then 1 else 256 * Pow256(n - 1)
  }

  /** int.to_bytes(size, "big") */
  function Big(value: nat, size: nat): (r: Bytes)
    ensures |r| == size
  {
    if size == 0 then [] else Big(value / 256, size - 1) + [value % 256]
  }

  /** int.from_bytes(b, "big") */
  function FromBig(b: Bytes): nat {
    if b == [] then 0 else FromBig(b[..|b| - 1]) * 256 + b[|b| - 1]
  }

  lemma {:induction false} FromBigFits(b: Bytes)
    ensures FromBig(b) < Pow256(|b|)
  {
    if b != [] { FromBigFits(b[..|b| - 1]); }
  }

  /** The bytes of a number's own width give it back. */
  lemma {:induction false} BigIsRead(value: nat, size: nat)
    requires value < Pow256(size)
    ensures FromBig(Big(value, size)) == value
  {
    if size > 0 {
      BigIsRead(value / 256, size - 1);
      assert Big(value, size)[..size - 1] == Big(value / 256, size - 1);
    }
  }

  /** Only those bytes read as the number. */
  lemma {:induction false} ReadIsBig(b: Bytes)
    ensures Big(FromBig(b), |b|) == b
  {
    if b != [] {
      ReadIsBig(b[..|b| - 1]);
      assert b == b[..|b| - 1] + [b[|b| - 1]];
    }
  }

  // --- concatenation --------------------------------------------------------------------------------------

  /** The data goes on with these bytes from this position. */
  predicate StartsAt(data: Bytes, pos: nat, bytes: Bytes) {
    pos + |bytes| <= |data| && data[pos..pos + |bytes|] == bytes
  }

  lemma Splits(data: Bytes, pos: nat, p: Bytes, rest: Bytes)
    requires StartsAt(data, pos, p + rest)
    ensures StartsAt(data, pos, p) && StartsAt(data, pos + |p|, rest)
  {
    var all := data[pos..pos + |p + rest|];
    assert data[pos..pos + |p|] == all[..|p|];
    assert data[pos + |p|..pos + |p| + |rest|] == all[|p|..];
  }

  lemma Joins(data: Bytes, pos: nat, p: Bytes, rest: Bytes)
    requires StartsAt(data, pos, p) && StartsAt(data, pos + |p|, rest)
    ensures StartsAt(data, pos, p + rest)
  {
    assert data[pos..pos + |p + rest|] == data[pos..pos + |p|] + data[pos + |p|..pos + |p| + |rest|];
  }

  lemma Peel(p: Bytes, x: Bytes, q: Bytes, y: Bytes)
    requires |p| == |q| && p + x == q + y
    ensures p == q && x == y
  {
    assert p == (p + x)[..|p|] && q == (q + y)[..|q|];
    assert x == (p + x)[|p|..] && y == (q + y)[|q|..];
  }

  lemma PeelBig(a: nat, x: Bytes, b: nat, y: Bytes, size: nat)
    requires a < Pow256(size) && b < Pow256(size) && Big(a, size) + x == Big(b, size) + y
    ensures a == b && x == y
  {
    Peel(Big(a, size), x, Big(b, size), y);
    BigIsRead(a, size);
    BigIsRead(b, size);
  }

  // --- Writer ---------------------------------------------------------------------------------------------

  /** Nothing, or the ValueError a Writer raises. */
  datatype Status = Done | Refused {
    predicate IsFailure() { Refused? }
    function PropagateFailure(): Result<Bytes> requires Refused? { Err(DoesNotFit) }
  }

  class Writer {
    var parts: seq<Bytes>

    /** Writer.getvalue */
    function Value(): Bytes
      reads this
    {
      Join(parts)
    }

    constructor ()
      ensures Value() == []
    {
      parts := [];
    }

    /** Writer.u8, u32, u64 and u256, by their width. */
    method Uint(value: nat, size: nat) returns (s: Status)
      modifies this
      ensures s.Done? <==> value < Pow256(size)
      ensures Value() == if s.Done? then old(Value()) + Big(value, size) else old(Value())
    {
      if value >= Pow256(size) { return Refused; }
      parts := parts + [Big(value, size)];
      s := Done;
    }

    method Fixed(data: Bytes, size: nat) returns (s: Status)
      modifies this
      ensures s.Done? <==> |data| == size
      ensures Value() == if s.Done? then old(Value()) + data else old(Value())
    {
      if |data| != size { return Refused; }
      parts := parts + [data];
      s := Done;
    }

    method Var8(data: Bytes) returns (s: Status)
      modifies this
      ensures s.Done? <==> |data| < 256
      ensures Value() == if s.Done? then old(Value()) + (Big(|data|, 1) + data) else old(Value())
    {
      assert Pow256(1) == 256 * Pow256(0);
      s := Uint(|data|, 1);
      if s.Refused? { return; }
      parts := parts + [data];
    }

    method Raw(data: Bytes)
      modifies this
      ensures Value() == old(Value()) + data
    {
      parts := parts + [data];
    }
  }

  function Join(parts: seq<Bytes>): Bytes {
    if parts == [] then [] else Join(parts[..|parts| - 1]) + parts[|parts| - 1]
  }

  // --- Reader -----------------------------------------------------------------------------------------------

  class Reader {
    const data: Bytes
    var pos: nat

    ghost predicate Valid()
      reads this
    {
      pos <= |data|
    }

    constructor (data: Bytes)
      ensures this.data == data && pos == 0 && Valid()
    {
      this.data := data;
      pos := 0;
    }

    /** Reader._take and Reader.fixed */
    method Take(size: nat) returns (r: Result<Bytes>)
      requires Valid()
      modifies this
      ensures Valid() && (r.Ok? <==> old(pos) + size <= |data|)
      ensures match r
              case Ok(b) => |b| == size && pos == old(pos) + size && StartsAt(data, old(pos), b)
              case Err(e) => pos == old(pos) && e == BadData
    {
      if pos + size > |data| { return Err(BadData); }
      r := Ok(data[pos..pos + size]);
      pos := pos + size;
    }

    /** Reader.u8, u32, u64 and u256, by their width. */
    method Uint(size: nat) returns (r: Result<nat>)
      requires Valid()
      modifies this
      ensures Valid() && (r.Ok? <==> old(pos) + size <= |data|)
      ensures match r
              case Ok(v) => v < Pow256(size) && pos == old(pos) + size && StartsAt(data, old(pos), Big(v, size))
              case Err(e) => pos == old(pos) && e == BadData
    {
      var b :- Take(size);
      FromBigFits(b);
      ReadIsBig(b);
      r := Ok(FromBig(b));
    }

    /** Reader.var8 */
    method Var8() returns (r: Result<Bytes>)
      requires Valid()
      modifies this
      ensures Valid() && pos >= old(pos)
      ensures match r
              case Ok(b) =>
                && |b| < 256 && pos == old(pos) + 1 + |b|
                && StartsAt(data, old(pos), Big(|b|, 1)) && StartsAt(data, old(pos) + 1, b)
              case Err(e) =>
                && e == BadData
                && forall b: Bytes :: |b| < 256 ==> !StartsAt(data, old(pos), Big(|b|, 1) + b)
    {
      ghost var start := pos;
      assert Pow256(1) == 256 * Pow256(0);
      var length := Uint(1);
      if length.Ok? {
        r := Take(length.value);
      } else {
        r := Err(BadData);
      }
      if r.Err? {
        forall b: Bytes | |b| < 256
          ensures !StartsAt(data, start, Big(|b|, 1) + b)
        {
          if StartsAt(data, start, Big(|b|, 1) + b) {
            Splits(data, start, Big(|b|, 1), b);
            BigIsRead(|b|, 1);
            BigIsRead(length.value, 1);
            assert false;
          }
        }
      }
    }

    /** Reader.expect_end */
    method ExpectEnd() returns (r: Result<Bytes>)
      requires Valid()
      ensures r.Ok? <==> pos == |data|
      ensures r.Err? ==> r == Err(BadData)
    {
      r := if pos == |data| then Ok([]) else Err(BadData);
    }
  }

  /** What was read where a known number was written is that number. */
  lemma ReadsBack(data: Bytes, pos: nat, v: nat, want: nat, size: nat)
    requires v < Pow256(size) && want < Pow256(size)
    requires StartsAt(data, pos, Big(v, size)) && StartsAt(data, pos, Big(want, size))
    ensures v == want
  {
    BigIsRead(v, size);
    BigIsRead(want, size);
  }
}
