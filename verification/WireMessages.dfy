/** The generated message coders of frontend/src/app/global/model/api.ts. All of them are the same
    text over different field lists, so the field list is a value here (a schema) and the coders are
    written once, over every schema. Module ApiSchema holds the lists of the file. */
module WireMessages {
  import opened Common
  import opened Wire

  datatype Kind = Int64 | Int32 | Uint32 | Bool | Text | Double | Message(schema: Schema)

  datatype Field = Field(number: nat, kind: Kind, repeated: bool)

  // The fields in the order in which encode writes them.
  datatype Schema = Schema(fields: seq<Field>)

  // Strings are their UTF-8 bytes, doubles their eight bytes; Absent is undefined.
  datatype Value =
    | Num(n: int)
    | Flag(on: bool)
    | Str(text: Bytes)
    | Dbl(bits: Bytes)
    | Absent
    | Sub(msg: Msg)
    | List(items: seq<Value>)

  // The properties of a message object, one a field of its schema.
  datatype Msg = Msg(slots: seq<Value>)

  const ZERO_BITS: Bytes := [0, 0, 0, 0, 0, 0, 0, 0]
  const NEG_ZERO_BITS: Bytes := [0, 0, 0, 0, 0, 0, 0, 0x80]

  function WireType(kind: Kind): nat {
    match kind
    case Int64 | Int32 | Uint32 | Bool => 0
    case Double => 1
    case Text | Message(_) => 2
  }

  function Tag(f: Field): nat {
    f.number * 8 + WireType(f.kind)
  }

  ghost predicate ValidSchema(schema: Schema) {
    && (forall i :: 0 <= i < |schema.fields| ==> 1 <= schema.fields[i].number < 0x2000_0000)
    && (forall i, j :: 0 <= i < j < |schema.fields| ==> schema.fields[i].number != schema.fields[j].number)
    && (forall i :: 0 <= i < |schema.fields| && schema.fields[i].kind.Message? ==>
          ValidSchema(schema.fields[i].kind.schema))
  }

  // createBase...
  function Default(f: Field): Value {
    if f.repeated then List([])
    else
      match f.kind
      case Int64 | Int32 | Uint32 => Num(0)
      case Bool => Flag(false)
      case Text => Str([])
      case Double => Dbl(ZERO_BITS)
      case Message(_) => Absent
  }

  function Base(schema: Schema): (m: Msg)
    ensures |m.slots| == |schema.fields|
  {
    Msg(seq(|schema.fields|, i requires 0 <= i < |schema.fields| => Default(schema.fields[i])))
  }

  // ----- encode

  // The test in front of a singular field. A double is compared as a number, and -0 equals 0.
  predicate Elided(v: Value) {
    v == Num(0) || v == Flag(false) || v == Str([]) || v == Dbl(ZERO_BITS) || v == Dbl(NEG_ZERO_BITS) || v == Absent
  }

  function EncodeItem(v: Value, kind: Kind): Bytes
    decreases v, 2
  {
    match (kind, v)
    case (Int64, Num(n)) => if -TWO64 / 2 <= n < TWO64 / 2 then Varint(Unsigned64(n)) else []
    case (Int32, Num(n)) => if -TWO64 / 2 <= n < TWO64 / 2 then Varint(Unsigned64(n)) else []
    case (Uint32, Num(n)) => if 0 <= n then Varint(n) else []
    case (Bool, Flag(on)) => if on then [1] else [0]
    case (Text, Str(text)) => Varint(|text|) + text
    case (Double, Dbl(bits)) => bits
    case (Message(schema), Sub(m)) => var body := EncodeMsg(m, schema); Varint(|body|) + body
    case _ => []
  }

  function EncodeItems(items: seq<Value>, f: Field): Bytes
    decreases items, 3
  {
    if items == [] then []
    else Varint(Tag(f)) + EncodeItem(items[0], f.kind) + EncodeItems(items[1..], f)
  }

  function EncodeField(v: Value, f: Field): Bytes
    decreases v, 4
  {
    if f.repeated then (if v.List? then EncodeItems(v.items, f) else [])
    else if Elided(v) then []
    else Varint(Tag(f)) + EncodeItem(v, f.kind)
  }

  function EncodeFields(slots: seq<Value>, fields: seq<Field>): Bytes
    decreases slots, 5
  {
    if slots == [] || fields == [] then []
    else EncodeField(slots[0], fields[0]) + EncodeFields(slots[1..], fields[1..])
  }

  function EncodeMsg(m: Msg, schema: Schema): Bytes
    decreases m, 6
  {
    EncodeFields(m.slots, schema.fields)
  }

  // ----- decode

  datatype Outcome = Done(msg: Msg, rest: Bytes, halted: bool) | Failed

  function IndexOf(fields: seq<Field>, number: nat): (i: nat)
    ensures i <= |fields|
    ensures i < |fields| ==> fields[i].number == number
    ensures forall j :: 0 <= j < i ==> fields[j].number != number
  {
    if fields == [] || fields[0].number == number then 0 else 1 + IndexOf(fields[1..], number)
  }

  // The tag is that of a field of the message, wire type included.
  predicate Known(schema: Schema, tag: nat) {
    var i := IndexOf(schema.fields, tag / 8);
    i < |schema.fields| && Tag(schema.fields[i]) == tag
  }

  // A singular field is overwritten, submessages included; a repeated one grows.
  function Put(m: Msg, i: nat, f: Field, v: Value): (r: Msg)
    requires i < |m.slots|
    ensures |r.slots| == |m.slots|
  {
    if f.repeated then
      Msg(m.slots[i := List((if m.slots[i].List? then m.slots[i].items else []) + [v])])
    else Msg(m.slots[i := v])
  }

  // A nested decode as the value of a field.
  function AsItem(r: Outcome): Parsed<Value> {
    match r
    case Done(m, after, _) => Got(Sub(m), after)
    case Failed => Bad
  }

  function ReadItem(kind: Kind, bs: Bytes): (r: Parsed<Value>)
    ensures r.Got? ==> |r.rest| <= |bs|
    decreases |bs|, 0
  {
    match kind
    case Int64 =>
      (match ReadVarint(bs, 10)
       case Bad => Bad
       case Got(u, rest) =>
         var n := Signed(u % TWO64, TWO64);
         // longToNumber throws for the others
         if -MAX_SAFE_INTEGER <= n <= MAX_SAFE_INTEGER then Got(Num(n), rest) else Bad)
    case Int32 => (match ReadUint32(bs) case Got(u, rest) => Got(Num(Signed(u, TWO32)), rest) case Bad => Bad)
    case Uint32 => (match ReadUint32(bs) case Got(u, rest) => Got(Num(u), rest) case Bad => Bad)
    case Bool => (match ReadVarint(bs, 10) case Got(u, rest) => Got(Flag(u % TWO64 != 0), rest) case Bad => Bad)
    case Double => if |bs| < 8 then Bad else Got(Dbl(bs[..8]), bs[8..])
    case Text =>
      (match ReadUint32(bs)
       case Bad => Bad
       case Got(length, rest) => if length <= |rest| then Got(Str(rest[..length]), rest[length..]) else Bad)
    case Message(schema) =>
      (match ReadUint32(bs)
       case Bad => Bad
       case Got(length, rest) => AsItem(DecodeLoop(schema, rest, |rest| - length, Base(schema))))
  }

  // The loop of decode: it runs while more than stop bytes remain. A nested message that runs past its
  // declared end, or stops at an end-group or zero tag, leaves the reader where it is.
  function DecodeLoop(schema: Schema, bs: Bytes, stop: int, m: Msg): (r: Outcome)
    requires |m.slots| == |schema.fields|
    ensures r.Done? ==> |r.rest| <= |bs| && |r.msg.slots| == |schema.fields|
    ensures r.Done? && !r.halted ==> |r.rest| <= stop || r.rest == bs
    decreases |bs|, 1
  {
    if |bs| <= stop then Done(m, bs, false)
    else
      match ReadUint32(bs)
      case Bad => Failed
      case Got(tag, rest) =>
        if Known(schema, tag) then
          var i := IndexOf(schema.fields, tag / 8);
          var f := schema.fields[i];
          match ReadItem(f.kind, rest)
          case Got(v, after) => DecodeLoop(schema, after, stop, Put(m, i, f, v))
          case Bad => Failed
        else if tag % 8 == 4 || tag == 0 then Done(m, rest, true)
        else
          match Skip(rest, tag % 8, None)
          case Got(_, after) => DecodeLoop(schema, after, stop, m)
          case Bad => Failed
  }

  /** decode of a whole buffer into the message m. */
  function DecodeInto(schema: Schema, bs: Bytes, m: Msg): Outcome
    requires |m.slots| == |schema.fields|
  {
    DecodeLoop(schema, bs, 0, m)
  }

  function Decode(schema: Schema, bs: Bytes): Outcome {
    DecodeInto(schema, bs, Base(schema))
  }

  // ----- what is read does not depend on what follows

  lemma ReadNumberExtends(kind: Kind, bs: Bytes, t: Bytes)
    requires WireType(kind) == 0 && ReadItem(kind, bs).Got?
    ensures var r := ReadItem(kind, bs); ReadItem(kind, bs + t) == Got(r.value, r.rest + t)
  {
    ReadVarintExtends(bs, 10, t);
  }

  lemma SplitExtends(bs: Bytes, n: nat, t: Bytes)
    requires n <= |bs|
    ensures (bs + t)[..n] == bs[..n] && (bs + t)[n..] == bs[n..] + t
  {
  }

  lemma ReadBytesExtends(kind: Kind, bs: Bytes, t: Bytes)
    requires (kind.Double? || kind.Text?) && ReadItem(kind, bs).Got?
    ensures var r := ReadItem(kind, bs); ReadItem(kind, bs + t) == Got(r.value, r.rest + t)
  {
    if kind.Double? {
      SplitExtends(bs, 8, t);
    } else {
      ReadUint32Extends(bs, t);
      SplitExtends(ReadUint32(bs).rest, ReadUint32(bs).value, t);
    }
  }

  // A nested decode is read from the bytes after the length.
  lemma ReadsNested(schema: Schema, bs: Bytes, length: nat, rest: Bytes, stop: int)
    requires ReadUint32(bs) == Got(length, rest) && stop == |rest| - length
    ensures ReadItem(Message(schema), bs) == AsItem(DecodeLoop(schema, rest, stop, Base(schema)))
  {
  }

  lemma ReadsNestedTwice(schema: Schema, bs: Bytes, t: Bytes) returns (rest: Bytes, stop: int)
    requires ReadItem(Message(schema), bs).Got?
    ensures |rest| < |bs|
    ensures ReadItem(Message(schema), bs) == AsItem(DecodeLoop(schema, rest, stop, Base(schema)))
    ensures ReadItem(Message(schema), bs + t) == AsItem(DecodeLoop(schema, rest + t, stop + |t|, Base(schema)))
  {
    var Got(length, after) := ReadUint32(bs);
    rest, stop := after, |after| - length;
    ReadUint32Extends(bs, t);
    ReadsNested(schema, bs, length, rest, stop);
    ReadsNested(schema, bs + t, length, rest + t, stop + |t|);
  }

  lemma {:induction false} NestedExtends(
    schema: Schema, bs: Bytes, stop: int, t: Bytes, item: Parsed<Value>, longer: Parsed<Value>)
    requires item == AsItem(DecodeLoop(schema, bs, stop, Base(schema)))
    requires longer == AsItem(DecodeLoop(schema, bs + t, stop + |t|, Base(schema)))
    requires item.Got?
    ensures longer == Got(item.value, item.rest + t)
    decreases |bs|, 2
  {
    DecodeLoopExtends(schema, bs, stop, Base(schema), t, stop + |t|);
  }

  lemma {:induction false} ReadItemExtends(kind: Kind, bs: Bytes, t: Bytes)
    requires ReadItem(kind, bs).Got?
    ensures var r := ReadItem(kind, bs); ReadItem(kind, bs + t) == Got(r.value, r.rest + t)
    decreases |bs|, 1
  {
    match kind
    case Int64 | Int32 | Uint32 | Bool => ReadNumberExtends(kind, bs, t);
    case Double | Text => ReadBytesExtends(kind, bs, t);
    case Message(schema) =>
      var rest, stop := ReadsNestedTwice(schema, bs, t);
      NestedExtends(schema, rest, stop, t, ReadItem(kind, bs), ReadItem(kind, bs + t));
  }

  lemma {:induction false} DecodeLoopExtends(
    schema: Schema, bs: Bytes, stop: int, m: Msg, t: Bytes, longer: int)
    requires longer == stop + |t| && |m.slots| == |schema.fields| && DecodeLoop(schema, bs, stop, m).Done?
    ensures var r := DecodeLoop(schema, bs, stop, m);
            DecodeLoop(schema, bs + t, longer, m) == Done(r.msg, r.rest + t, r.halted)
    decreases |bs|, 1
  {
    if |bs| > stop {
      ReadUint32Extends(bs, t);
      var Got(tag, rest) := ReadUint32(bs);
      if Known(schema, tag) {
        var i := IndexOf(schema.fields, tag / 8);
        var f := schema.fields[i];
        ReadItemExtends(f.kind, rest, t);
        var Got(v, after) := ReadItem(f.kind, rest);
        DecodeLoopExtends(schema, after, stop, Put(m, i, f, v), t, longer);
      } else if tag % 8 != 4 && tag != 0 {
        SkipExtends(rest, tag % 8, None, t);
        DecodeLoopExtends(schema, Skip(rest, tag % 8, None).rest, stop, m, t, longer);
      }
    }
  }

  // Stopping earlier and going on from there is the same as not stopping.
  lemma {:induction false} DecodeLoopResumes(schema: Schema, bs: Bytes, stop: int, further: int, m: Msg)
    requires |m.slots| == |schema.fields| && further <= stop
    requires var r := DecodeLoop(schema, bs, stop, m); r.Done? && !r.halted
    ensures var r := DecodeLoop(schema, bs, stop, m);
            DecodeLoop(schema, bs, further, m) == DecodeLoop(schema, r.rest, further, r.msg)
    decreases |bs|
  {
    if |bs| > stop {
      var Got(tag, rest) := ReadUint32(bs);
      if Known(schema, tag) {
        var i := IndexOf(schema.fields, tag / 8);
        var f := schema.fields[i];
        var Got(v, after) := ReadItem(f.kind, rest);
        DecodeLoopResumes(schema, after, stop, further, Put(m, i, f, v));
      } else {
        DecodeLoopResumes(schema, Skip(rest, tag % 8, None).rest, stop, further, m);
      }
    }
  }

  /** bs is a sequence of whole fields: decoding it into m reads all of it and gives after. */
  ghost predicate Reads(schema: Schema, bs: Bytes, m: Msg, after: Msg) {
    |m.slots| == |schema.fields| && DecodeInto(schema, bs, m) == Done(after, [], false)
  }

  /** Decoding composes: after whole fields a, decoding a + b is decoding b into what a gave, whatever
      b is and however that ends. So the last of several values of a singular field wins, a submessage
      is replaced, and repeated fields are put together. */
  lemma DecodeComposes(schema: Schema, a: Bytes, b: Bytes, m: Msg, between: Msg)
    requires Reads(schema, a, m, between)
    ensures |between.slots| == |schema.fields|
    ensures DecodeInto(schema, a + b, m) == DecodeInto(schema, b, between)
  {
    DecodeLoopExtends(schema, a, 0, m, b, |b|);
    assert [] + b == b;
    DecodeLoopResumes(schema, a + b, |b|, 0, m);
  }

  /** u is one field that the message does not know: another number, or a known number with another
      wire type. */
  ghost predicate IsForeignField(schema: Schema, u: Bytes) {
    var r := ReadUint32(u);
    && r.Got? && !Known(schema, r.value) && r.value % 8 != 4 && r.value != 0
    && Skip(r.rest, r.value % 8, None) == Got((), [])
  }

  /** An unknown field between two fields changes nothing. */
  lemma ForeignFieldIsSkipped(schema: Schema, a: Bytes, u: Bytes, b: Bytes, m: Msg, between: Msg)
    requires Reads(schema, a, m, between) && IsForeignField(schema, u)
    ensures DecodeInto(schema, a + u + b, m) == DecodeInto(schema, a + b, m)
  {
    var tag := ReadUint32(u).value;
    var after := Skip(ReadUint32(u).rest, tag % 8, None).rest;
    DecodeComposes(schema, a, b, m, between);
    assert DecodeLoop(schema, u, 0, between) == DecodeLoop(schema, after, 0, between);
    assert Reads(schema, u, between, between);
    DecodeComposes(schema, u, b, between, between);
    assert a + u + b == a + (u + b);
    DecodeComposes(schema, a, u + b, m, between);
  }

  // ----- the examples of the Encoding guide

  /** 150 is written 96 01, and -2 as an int32 in ten bytes. */
  lemma GuideVarints()
    ensures Varint(150) == [0x96, 0x01]
    ensures EncodeItem(Num(-2), Int32) == [0xFE, 0xFF, 0xFF, 0xFF, 0xFF, 0xFF, 0xFF, 0xFF, 0xFF, 0x01]
  {
    assert Varint(0xFF) == [0xFF, 0x01];
    assert Varint(0x7FFF) == [0xFF, 0xFF, 0x01];
    assert Varint(0x3F_FFFF) == [0xFF, 0xFF, 0xFF, 0x01];
    assert Varint(0x1FFF_FFFF) == [0xFF, 0xFF, 0xFF, 0xFF, 0x01];
    assert Varint(0xF_FFFF_FFFF) == [0xFF, 0xFF, 0xFF, 0xFF, 0xFF, 0x01];
    assert Varint(0x7FF_FFFF_FFFF) == [0xFF, 0xFF, 0xFF, 0xFF, 0xFF, 0xFF, 0x01];
    assert Varint(0x3_FFFF_FFFF_FFFF) == [0xFF, 0xFF, 0xFF, 0xFF, 0xFF, 0xFF, 0xFF, 0x01];
    assert Varint(0x1FF_FFFF_FFFF_FFFF) == [0xFF, 0xFF, 0xFF, 0xFF, 0xFF, 0xFF, 0xFF, 0xFF, 0x01];
    assert Unsigned64(-2) == 0xFFFF_FFFF_FFFF_FFFE;
  }

  /** An int32 field 1 holding 150 is 08 96 01, and in a submessage of field 3 it is 1a 03 08 96 01. */
  lemma GuideSubmessage()
    ensures var inner := Schema([Field(1, Int32, false)]);
            && EncodeMsg(Msg([Num(150)]), inner) == [0x08, 0x96, 0x01]
            && EncodeMsg(Msg([Sub(Msg([Num(150)]))]), Schema([Field(3, Message(inner), false)]))
               == [0x1A, 0x03, 0x08, 0x96, 0x01]
  {
    GuideVarints();
    var inner := Schema([Field(1, Int32, false)]);
    OneField(Num(150), inner.fields[0]);
    OneField(Sub(Msg([Num(150)])), Field(3, Message(inner), false));
  }

  /** A string field 2 holding "testing" is 12 07 and the letters. */
  lemma GuideText()
    ensures var text: Bytes := [0x74, 0x65, 0x73, 0x74, 0x69, 0x6E, 0x67];
            EncodeMsg(Msg([Str(text)]), Schema([Field(2, Text, false)])) == [0x12, 0x07] + text
  {
    OneField(Str([0x74, 0x65, 0x73, 0x74, 0x69, 0x6E, 0x67]), Field(2, Text, false));
  }

  lemma OneField(v: Value, f: Field)
    ensures EncodeMsg(Msg([v]), Schema([f])) == EncodeField(v, f)
  {
    assert EncodeFields([v], [f]) == EncodeField(v, f) + EncodeFields([v][1..], [f][1..]);
  }
}
