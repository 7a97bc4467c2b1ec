/** The Protocol Buffers wire format, as the encoders and decoders of
    frontend/src/app/global/model/api.ts use it. The reader and writer primitives follow the Protocol
    Buffers Encoding guide; they are functions on the bytes that remain to be read. */
module Wire {
  import opened Common

  type Byte = b: int | 0 <= b < 256
  type Bytes = seq<Byte>

  const TWO32 := 0x1_0000_0000
  const TWO64 := 0x1_0000_0000_0000_0000
  const MAX_SAFE_INTEGER := 0x1F_FFFF_FFFF_FFFF

  datatype Parsed<+T> = Got(value: T, rest: Bytes) | Bad

  // ----- varints

  function Varint(n: nat): Bytes {
    if n < 128 then [n] else [n % 128 + 128] + Varint(n / 128)
  }

  // Reads a varint of at most budget bytes.
  function ReadVarint(bs: Bytes, budget: nat): (r: Parsed<nat>)
    ensures r.Got? ==> |r.rest| < |bs|
  {
    if budget == 0 || bs == [] then Bad
    else if bs[0] < 128 then Got(bs[0], bs[1..])
    else
      match ReadVarint(bs[1..], budget - 1)
      case Got(high, rest) => Got(bs[0] - 128 + 128 * high, rest)
      case Bad => Bad
  }

  function Capacity(budget: nat): nat {
    if budget == 0 then 1 else 128 * Capacity(budget - 1)
  }

  lemma {:induction false} VarintRoundTrip(n: nat, budget: nat, t: Bytes)
    requires budget > 0 && n < Capacity(budget)
    ensures ReadVarint(Varint(n) + t, budget) == Got(n, t)
    decreases n
  {
    if n < 128 {
      assert (Varint(n) + t)[1..] == t;
    } else {
      var tail := Varint(n / 128);
      assert (Varint(n) + t)[1..] == tail + t;
      VarintRoundTrip(n / 128, budget - 1, t);
    }
  }

  lemma {:induction false} ReadVarintExtends(bs: Bytes, budget: nat, t: Bytes)
    requires ReadVarint(bs, budget).Got?
    ensures var r := ReadVarint(bs, budget); ReadVarint(bs + t, budget) == Got(r.value, r.rest + t)
  {
    assert (bs + t)[1..] == bs[1..] + t;
    if bs[0] >= 128 {
      ReadVarintExtends(bs[1..], budget - 1, t);
    }
  }

  lemma TenBytesAreEnough(n: nat)
    requires n < TWO64
    ensures n < Capacity(10)
  {
    assert Capacity(2) == 0x4000;
    assert Capacity(4) == 0x1000_0000;
    assert Capacity(7) == 0x2_0000_0000_0000;
    assert Capacity(10) == 0x40_0000_0000_0000_0000;
  }

  // reader.uint32: a varint cut to its low 32 bits.
  function ReadUint32(bs: Bytes): (r: Parsed<nat>)
    ensures r.Got? ==> |r.rest| < |bs| && r.value < TWO32
  {
    match ReadVarint(bs, 10)
    case Got(v, rest) => Got(v % TWO32, rest)
    case Bad => Bad
  }

  lemma Uint32RoundTrip(n: nat, t: Bytes)
    requires n < TWO32
    ensures ReadUint32(Varint(n) + t) == Got(n, t)
  {
    TenBytesAreEnough(n);
    VarintRoundTrip(n, 10, t);
  }

  lemma ReadUint32Extends(bs: Bytes, t: Bytes)
    requires ReadUint32(bs).Got?
    ensures var r := ReadUint32(bs); ReadUint32(bs + t) == Got(r.value, r.rest + t)
  {
    ReadVarintExtends(bs, 10, t);
  }

  // Two's complement, 64 bits for writing and 32 or 64 for reading.
  function Unsigned64(n: int): nat
    requires -TWO64 / 2 <= n < TWO64 / 2
  {
    if n < 0 then n + TWO64 else n
  }

  function Signed(u: nat, modulus: nat): int
    requires u < modulus
  {
    if u >= modulus / 2 then u - modulus else u
  }

  // ----- skipping

  function Drop(bs: Bytes, n: nat): (r: Parsed<()>)
    ensures r.Got? ==> |r.rest| <= |bs|
  {
    if n <= |bs| then Got((), bs[n..]) else Bad
  }

  // reader.skip for the wire type of a tag; group is the number of the group being skipped.
  function Skip(bs: Bytes, wireType: nat, group: Option<nat>): (r: Parsed<()>)
    ensures r.Got? ==> |r.rest| <= |bs|
    decreases |bs|, 1
  {
    match wireType
    case 0 => (match ReadVarint(bs, 10) case Got(_, rest) => Got((), rest) case Bad => Bad)
    case 1 => Drop(bs, 8)
    case 2 => (match ReadUint32(bs) case Got(length, rest) => Drop(rest, length) case Bad => Bad)
    case 3 => SkipGroup(bs, group)
    case 5 => Drop(bs, 4)
    case _ => Bad
  }

  function SkipGroup(bs: Bytes, group: Option<nat>): (r: Parsed<()>)
    ensures r.Got? ==> |r.rest| <= |bs|
    decreases |bs|, 0
  {
    match ReadUint32(bs)
    case Bad => Bad
    case Got(tag, rest) =>
      if tag / 8 == 0 || tag % 8 > 5 then Bad
      else if tag % 8 == 4 then (if group.Some? && group.value != tag / 8 then Bad else Got((), rest))
      else
        match Skip(rest, tag % 8, Some(tag / 8))
        case Bad => Bad
        case Got(_, after) => SkipGroup(after, group)
  }

  lemma DropExtends(bs: Bytes, n: nat, t: Bytes)
    requires Drop(bs, n).Got?
    ensures Drop(bs + t, n) == Got((), Drop(bs, n).rest + t)
  {
    assert (bs + t)[n..] == bs[n..] + t;
  }

  lemma {:induction false} SkipExtends(bs: Bytes, wireType: nat, group: Option<nat>, t: Bytes)
    requires Skip(bs, wireType, group).Got?
    ensures Skip(bs + t, wireType, group) == Got((), Skip(bs, wireType, group).rest + t)
    decreases |bs|, 1
  {
    match wireType
    case 0 => ReadVarintExtends(bs, 10, t);
    case 1 => DropExtends(bs, 8, t);
    case 2 =>
      ReadUint32Extends(bs, t);
      DropExtends(ReadUint32(bs).rest, ReadUint32(bs).value, t);
    case 3 => SkipGroupExtends(bs, group, t);
    case 5 => DropExtends(bs, 4, t);
  }

  lemma {:induction false} SkipGroupExtends(bs: Bytes, group: Option<nat>, t: Bytes)
    requires SkipGroup(bs, group).Got?
    ensures SkipGroup(bs + t, group) == Got((), SkipGroup(bs, group).rest + t)
    decreases |bs|, 0
  {
    ReadUint32Extends(bs, t);
    var Got(tag, rest) := ReadUint32(bs);
    if tag % 8 != 4 {
      SkipExtends(rest, tag % 8, Some(tag / 8), t);
      SkipGroupExtends(Skip(rest, tag % 8, Some(tag / 8)).rest, group, t);
    }
  }
}
