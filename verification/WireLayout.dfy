/** The bytes on the wire, said independently of the coders: what a varint is made of, which number, length
    and tag stand where, and how long the fields are that a reader does not know. These are the rules of
    the Protocol Buffers Encoding guide that a peer in another language relies on. */
module WireLayout {
  import opened Common
  import opened Wire
  import opened WireMessages

  // ----- varints

  lemma QuotientIs(n: nat, d: nat, q: nat)
    requires d > 0 && d * q <= n < d * q + d
    ensures n / d == q
  {
    var p := n / d;
    if p < q {
      MultiplesGrow(d, p + 1, q);
    } else if p > q {
      MultiplesGrow(d, q + 1, p);
    }
  }

  lemma MultiplesGrow(d: nat, p: nat, q: nat)
    requires p <= q
    ensures d * p <= d * q
  {
  }

  lemma DividedTwice(n: nat, b: nat)
    requires b > 0
    ensures n / 128 / b == n / (128 * b)
  {
    var m := n / 128;
    var q := m / b;
    assert b * q <= m < b * q + b;
    QuotientIs(n, 128 * b, q);
  }

  lemma {:induction false} CapacityIsPositive(k: nat)
    ensures Capacity(k) > 0
  {
    if k > 0 {
      CapacityIsPositive(k - 1);
    }
  }

  /** A varint holds the digits of the number to base 128, the lowest first, with the high bit set on all
      bytes but the last; and it is as short as it can be. */
  lemma {:induction false} VarintDigits(n: nat, i: nat)
    requires i < |Varint(n)|
    ensures Capacity(i) > 0 && Varint(n)[i] % 128 == n / Capacity(i) % 128
    ensures Varint(n)[i] >= 128 <==> i + 1 < |Varint(n)|
    ensures n < Capacity(|Varint(n)|) && (|Varint(n)| > 1 ==> Capacity(|Varint(n)| - 1) <= n)
    decreases n
  {
    CapacityIsPositive(i);
    if n >= 128 {
      var tail := Varint(n / 128);
      VarintDigits(n / 128, if i == 0 then 0 else i - 1);
      if i > 0 {
        CapacityIsPositive(i - 1);
        DividedTwice(n, Capacity(i - 1));
        assert Varint(n)[i] == tail[i - 1];
      }
      assert |Varint(n)| == |tail| + 1;
    }
  }

  // ----- the payloads

  /** Integers are written as the varint of the number modulo 2^64, negative ones in ten bytes; booleans
      as 0 or 1. */
  lemma NumbersAreVarints(kind: Kind, n: int, on: bool, t: Bytes)
    requires match kind
             case Int64 => -0x8000_0000_0000_0000 <= n < 0x8000_0000_0000_0000
             case Int32 => -0x8000_0000 <= n < 0x8000_0000
             case Uint32 => 0 <= n < 0x1_0000_0000
             case _ => kind.Bool?
    ensures !kind.Bool? ==> ReadVarint(EncodeItem(Num(n), kind) + t, 10) == Got(n % 0x1_0000_0000_0000_0000, t)
    ensures kind.Bool? ==> ReadVarint(EncodeItem(Flag(on), kind) + t, 10) == Got(if on then 1 else 0, t)
  {
    if kind.Bool? {
      assert ([if on then 1 else 0] + t)[1..] == t;
    } else {
      var u := if n < 0 then n + TWO64 else n;
      assert u == n % TWO64 && EncodeItem(Num(n), kind) == Varint(u);
      TenBytesAreEnough(u);
      VarintRoundTrip(u, 10, t);
    }
  }

  lemma CongruentIsSigned(u: nat, n: int, modulus: nat)
    requires modulus == TWO32 || modulus == TWO64
    requires -(modulus / 2) <= n < modulus / 2 && (n - u) % modulus == 0
    ensures Signed(u % modulus, modulus) == n
  {
  }

  /** A varint is read as the number in the range of its kind that it is congruent to; an int64 that
      JavaScript cannot hold exactly is refused. */
  lemma VarintsAreNumbers(kind: Kind, u: nat, n: int, t: Bytes)
    requires u < 0x1_0000_0000_0000_0000
    requires match kind
             case Int64 => -0x8000_0000_0000_0000 <= n < 0x8000_0000_0000_0000 && (n - u) % 0x1_0000_0000_0000_0000 == 0
             case Int32 => -0x8000_0000 <= n < 0x8000_0000 && (n - u) % 0x1_0000_0000 == 0
             case Uint32 => 0 <= n < 0x1_0000_0000 && (n - u) % 0x1_0000_0000 == 0
             case _ => kind.Bool?
    ensures kind.Int64? ==>
              ReadItem(kind, Varint(u) + t)
              == if -0x1F_FFFF_FFFF_FFFF <= n <= 0x1F_FFFF_FFFF_FFFF then Got(Num(n), t) else Bad
    ensures kind.Int32? || kind.Uint32? ==> ReadItem(kind, Varint(u) + t) == Got(Num(n), t)
    ensures kind.Bool? ==> ReadItem(kind, Varint(u) + t) == Got(Flag(u != 0), t)
  {
    TenBytesAreEnough(u);
    VarintRoundTrip(u, 10, t);
    match kind
    case Int64 =>
      CongruentIsSigned(u, n, TWO64);
      Int64Read(u, n, Varint(u) + t, t);
    case Int32 =>
      CongruentIsSigned(u, n, TWO32);
      Int32Read(u, n, Varint(u) + t, t);
    case Uint32 => Uint32Read(u, n, Varint(u) + t, t);
    case _ =>
  }

  lemma Int64Read(u: nat, n: int, bs: Bytes, t: Bytes)
    requires ReadVarint(bs, 10) == Got(u, t) && Signed(u % TWO64, TWO64) == n
    ensures ReadItem(Int64, bs) == if -0x1F_FFFF_FFFF_FFFF <= n <= 0x1F_FFFF_FFFF_FFFF then Got(Num(n), t) else Bad
  {
  }

  lemma Int32Read(u: nat, n: int, bs: Bytes, t: Bytes)
    requires ReadVarint(bs, 10) == Got(u, t) && Signed(u % TWO32, TWO32) == n
    ensures ReadItem(Int32, bs) == Got(Num(n), t)
  {
  }

  lemma Uint32Read(u: nat, n: int, bs: Bytes, t: Bytes)
    requires ReadVarint(bs, 10) == Got(u, t) && 0 <= n < TWO32 && (n - u) % TWO32 == 0
    ensures ReadItem(Uint32, bs) == Got(Num(n), t)
  {
    assert u % TWO32 == n;
  }

  /** Text and messages are preceded by the number of their bytes; a double is its eight bytes. */
  lemma LengthsComeFirst(text: Bytes, m: Msg, schema: Schema, bits: Bytes, t: Bytes)
    requires |text| < TWO32 && |EncodeMsg(m, schema)| < TWO32
    ensures ReadUint32(EncodeItem(Str(text), Text) + t) == Got(|text|, text + t)
    ensures ReadUint32(EncodeItem(Sub(m), Message(schema)) + t)
         == Got(|EncodeMsg(m, schema)|, EncodeMsg(m, schema) + t)
    ensures EncodeItem(Dbl(bits), Double) == bits
  {
    var body := EncodeMsg(m, schema);
    Uint32RoundTrip(|text|, text + t);
    Uint32RoundTrip(|body|, body + t);
    assert Varint(|text|) + text + t == Varint(|text|) + (text + t);
    assert Varint(|body|) + body + t == Varint(|body|) + (body + t);
  }

  // ----- tags

  predicate IsDefault(v: Value) {
    v in {Num(0), Flag(false), Str([]), Dbl([0, 0, 0, 0, 0, 0, 0, 0]), Dbl([0, 0, 0, 0, 0, 0, 0, 0x80]), Absent}
  }

  // Varint, eight bytes, or a length and that many bytes.
  function WireTypeOf(kind: Kind): nat {
    if kind in {Int64, Int32, Uint32, Bool} then 0 else if kind == Double then 1 else 2
  }

  /** A singular field that holds its default is left out; any other is written behind its tag, the field
      number and the wire type in the three low bits. */
  lemma SingularFields(v: Value, f: Field, t: Bytes)
    requires !f.repeated && f.number < 0x2000_0000
    ensures IsDefault(v) ==> EncodeField(v, f) == []
    ensures !IsDefault(v) ==>
              ReadUint32(EncodeField(v, f) + t) == Got(8 * f.number + WireTypeOf(f.kind), EncodeItem(v, f.kind) + t)
  {
    if !IsDefault(v) {
      TagIsRead(f, EncodeItem(v, f.kind), t);
    }
  }

  lemma TagIsRead(f: Field, item: Bytes, t: Bytes)
    requires f.number < 0x2000_0000
    ensures ReadUint32(Varint(Tag(f)) + item + t) == Got(8 * f.number + WireTypeOf(f.kind), item + t)
  {
    assert Varint(Tag(f)) + item + t == Varint(Tag(f)) + (item + t);
    Uint32RoundTrip(Tag(f), item + t);
  }

  /** Every element of a repeated field has its own tag, defaults included. */
  lemma RepeatedFields(first: Value, rest: seq<Value>, f: Field, t: Bytes)
    requires f.repeated && f.number < 0x2000_0000
    ensures EncodeField(List([]), f) == []
    ensures ReadUint32(EncodeField(List([first] + rest), f) + t)
         == Got(8 * f.number + WireTypeOf(f.kind), EncodeItem(first, f.kind) + (EncodeField(List(rest), f) + t))
  {
    var later, item := EncodeItems(rest, f), EncodeItem(first, f.kind);
    ItemsBegin(first, rest, f);
    TagIsRead(f, item, later + t);
    Regroup(Varint(Tag(f)) + item, later, t);
  }

  lemma ItemsBegin(first: Value, rest: seq<Value>, f: Field)
    ensures EncodeItems([first] + rest, f) == Varint(Tag(f)) + EncodeItem(first, f.kind) + EncodeItems(rest, f)
  {
    var items := [first] + rest;
    assert items[0] == first && items[1..] == rest;
  }

  lemma Regroup(a: Bytes, b: Bytes, c: Bytes)
    ensures a + b + c == a + (b + c)
  {
  }

  // ----- fields that a reader does not know

  // The payload of a field, whatever it means.
  datatype Raw =
    | Number(n: nat)
    | Eight(bytes: Bytes)
    | Four(bytes: Bytes)
    | Delimited(bytes: Bytes)
    | Group(fields: seq<RawField>)

  datatype RawField = RawField(number: nat, value: Raw)

  predicate RawOk(v: Raw) {
    match v
    case Number(n) => n < TWO64
    case Eight(bytes) => |bytes| == 8
    case Four(bytes) => |bytes| == 4
    case Delimited(bytes) => |bytes| < TWO32
    case Group(fields) => forall k :: 0 <= k < |fields| ==> RawFieldOk(fields[k])
  }

  predicate RawFieldOk(f: RawField) {
    1 <= f.number < 0x2000_0000 && RawOk(f.value)
  }

  function RawType(v: Raw): nat {
    match v
    case Number(_) => 0
    case Eight(_) => 1
    case Delimited(_) => 2
    case Group(_) => 3
    case Four(_) => 5
  }

  // The payload behind the tag; a group ends with an end tag of its own number.
  function Payload(v: Raw, number: nat): Bytes
    decreases v, 1
  {
    match v
    case Number(n) => Varint(n)
    case Eight(bytes) => bytes
    case Four(bytes) => bytes
    case Delimited(bytes) => Varint(|bytes|) + bytes
    case Group(fields) => FieldsOf(fields) + Varint(8 * number + 4)
  }

  function FieldOf(f: RawField): Bytes
    decreases f, 2
  {
    Varint(8 * f.number + RawType(f.value)) + Payload(f.value, f.number)
  }

  function FieldsOf(fields: seq<RawField>): Bytes
    decreases fields, 0
  {
    if fields == [] then [] else FieldOf(fields[0]) + FieldsOf(fields[1..])
  }

  /** Skipping a payload leaves exactly what follows it, groups in groups included. */
  lemma {:induction false} PayloadIsSkipped(v: Raw, number: nat, group: Option<nat>, t: Bytes)
    requires RawOk(v) && 1 <= number < 0x2000_0000 && (group == None || group == Some(number))
    ensures Skip(Payload(v, number) + t, RawType(v), group) == Got((), t)
    decreases v, 1
  {
    match v
    case Number(n) =>
      TenBytesAreEnough(n);
      VarintRoundTrip(n, 10, t);
    case Eight(bytes) => BytesAreDropped(bytes, t);
    case Four(bytes) => BytesAreDropped(bytes, t);
    case Delimited(bytes) =>
      assert Varint(|bytes|) + bytes + t == Varint(|bytes|) + (bytes + t);
      Uint32RoundTrip(|bytes|, bytes + t);
      BytesAreDropped(bytes, t);
    case Group(fields) => GroupIsSkipped(fields, number, group, t);
  }

  lemma BytesAreDropped(bytes: Bytes, t: Bytes)
    ensures Drop(bytes + t, |bytes|) == Got((), t)
  {
    assert (bytes + t)[|bytes|..] == t;
  }

  lemma FieldIsSkipped(f: RawField, tag: nat, t: Bytes)
    requires RawFieldOk(f) && tag == 8 * f.number + RawType(f.value)
    ensures 8 <= tag && tag % 8 <= 5 && tag % 8 != 4
    ensures ReadUint32(FieldOf(f) + t) == Got(tag, Payload(f.value, f.number) + t)
    ensures Skip(Payload(f.value, f.number) + t, tag % 8, Some(tag / 8)) == Got((), t)
    decreases f, 2
  {
    var payload := Payload(f.value, f.number);
    assert tag / 8 == f.number && tag % 8 == RawType(f.value);
    assert FieldOf(f) + t == Varint(tag) + (payload + t);
    Uint32RoundTrip(tag, payload + t);
    PayloadIsSkipped(f.value, f.number, Some(f.number), t);
  }

  // One field of a group, and then the others.
  lemma GroupGoesOn(bs: Bytes, group: Option<nat>, tag: nat, rest: Bytes, later: Bytes)
    requires ReadUint32(bs) == Got(tag, rest) && 8 <= tag && tag % 8 <= 5 && tag % 8 != 4
    requires Skip(rest, tag % 8, Some(tag / 8)) == Got((), later)
    ensures SkipGroup(bs, group) == SkipGroup(later, group)
  {
  }

  lemma GroupEnds(number: nat, group: Option<nat>, t: Bytes)
    requires 1 <= number < 0x2000_0000 && (group == None || group == Some(number))
    ensures SkipGroup(Varint(8 * number + 4) + t, group) == Got((), t)
  {
    Uint32RoundTrip(8 * number + 4, t);
  }

  lemma FieldsBegin(fields: seq<RawField>, end: Bytes, t: Bytes)
    requires fields != []
    ensures FieldsOf(fields) + end + t == FieldOf(fields[0]) + (FieldsOf(fields[1..]) + end + t)
  {
  }

  lemma {:induction false} GroupIsSkipped(fields: seq<RawField>, number: nat, group: Option<nat>, t: Bytes)
    requires forall k :: 0 <= k < |fields| ==> RawFieldOk(fields[k])
    requires 1 <= number < 0x2000_0000 && (group == None || group == Some(number))
    ensures SkipGroup(FieldsOf(fields) + Varint(8 * number + 4) + t, group) == Got((), t)
    decreases fields, 0
  {
    var end := Varint(8 * number + 4);
    if fields == [] {
      assert FieldsOf(fields) + end + t == end + t;
      GroupEnds(number, group, t);
    } else {
      var f, later := fields[0], FieldsOf(fields[1..]) + end + t;
      FieldsBegin(fields, end, t);
      var tag := 8 * f.number + RawType(f.value);
      FieldIsSkipped(f, tag, later);
      GroupGoesOn(FieldOf(f) + later, group, tag, Payload(f.value, f.number) + later, later);
      GroupIsSkipped(fields[1..], number, group, t);
    }
  }

  /** A group that is closed by the number of another one, and a payload cut short, are refused. */
  lemma BrokenIsRefused(number: nat, other: nat, bytes: Bytes, t: Bytes, group: Option<nat>)
    requires 1 <= number < 0x2000_0000 && 1 <= other < 0x2000_0000 && number != other
    ensures SkipGroup(Varint(8 * other + 4) + t, Some(number)) == Bad
    ensures |bytes| < 8 ==> Skip(bytes, 1, group) == Bad
    ensures |bytes| < 4 ==> Skip(bytes, 5, group) == Bad
    ensures |bytes| < number ==> Skip(Varint(number) + bytes, 2, group) == Bad
    ensures Skip(bytes, 4, group) == Skip(bytes, 6, group) == Skip(bytes, 7, group) == Bad
  {
    Uint32RoundTrip(8 * other + 4, t);
    Uint32RoundTrip(number, bytes);
  }

  /** Compatibility. A field with a number the message does not have, or a known number with another wire
      type, can stand between any two fields and changes nothing. */
  lemma UnknownFieldIsIgnored(schema: Schema, a: Bytes, f: RawField, b: Bytes, m: Msg, between: Msg)
    requires ValidSchema(schema) && RawFieldOk(f) && Reads(schema, a, m, between)
    requires forall k :: 0 <= k < |schema.fields| && schema.fields[k].number == f.number ==>
               WireTypeOf(schema.fields[k].kind) != RawType(f.value)
    ensures DecodeInto(schema, a + FieldOf(f) + b, m) == DecodeInto(schema, a + b, m)
  {
    FieldIsForeign(schema, f);
    ForeignFieldIsSkipped(schema, a, FieldOf(f), b, m, between);
  }

  lemma FieldIsForeign(schema: Schema, f: RawField)
    requires RawFieldOk(f)
    requires forall k :: 0 <= k < |schema.fields| && schema.fields[k].number == f.number ==>
               WireTypeOf(schema.fields[k].kind) != RawType(f.value)
    ensures IsForeignField(schema, FieldOf(f))
  {
    var tag, payload := 8 * f.number + RawType(f.value), Payload(f.value, f.number);
    Uint32RoundTrip(tag, payload);
    PayloadIsSkipped(f.value, f.number, None, []);
    assert payload + [] == payload;
    assert tag / 8 == f.number && tag % 8 == RawType(f.value) && !Known(schema, tag);
  }

  /** A zero tag, or an end tag outside a group, ends the message where it stands. */
  lemma EndTagStops(schema: Schema, a: Bytes, tag: nat, b: Bytes, m: Msg, between: Msg)
    requires ValidSchema(schema) && Reads(schema, a, m, between)
    requires tag < TWO32 && (tag == 0 || tag % 8 == 4)
    ensures DecodeInto(schema, a + (Varint(tag) + b), m) == Done(between, b, true)
  {
    DecodeComposes(schema, a, Varint(tag) + b, m, between);
    Uint32RoundTrip(tag, b);
    assert !Known(schema, tag);
  }
}
