/** decode(encode(m)) gives back m, through nested and repeated messages. */
module WireRoundTrip {
  import opened Wire
  import opened WireMessages

  /** A value the writer takes for the kind: int64 within the safe integers, int32 and uint32 in range,
      lengths that fit the length prefix. */
  ghost predicate ItemOk(v: Value, kind: Kind)
    decreases v, 0
  {
    match kind
    case Int64 => v.Num? && -MAX_SAFE_INTEGER <= v.n <= MAX_SAFE_INTEGER
    case Int32 => v.Num? && -TWO32 / 2 <= v.n < TWO32 / 2
    case Uint32 => v.Num? && 0 <= v.n < TWO32
    case Bool => v.Flag?
    case Text => v.Str? && |v.text| < TWO32
    case Double => v.Dbl? && |v.bits| == 8
    case Message(schema) => v.Sub? && MsgOk(v.msg, schema) && |EncodeMsg(v.msg, schema)| < TWO32
  }

  ghost predicate FieldOk(v: Value, f: Field)
    decreases v, 1
  {
    if f.repeated then v.List? && forall i :: 0 <= i < |v.items| ==> ItemOk(v.items[i], f.kind)
    else (f.kind.Message? && v.Absent?) || ItemOk(v, f.kind)
  }

  ghost predicate MsgOk(m: Msg, schema: Schema)
    decreases m, 2
  {
    && |m.slots| == |schema.fields|
    && (forall i :: 0 <= i < |m.slots| ==> FieldOk(m.slots[i], schema.fields[i]))
  }

  // What comes back: the same, except that a singular -0 has become 0.
  function CanonItem(v: Value, kind: Kind): Value
    decreases v, 0
  {
    if v.Sub? && kind.Message? then Sub(CanonMsg(v.msg, kind.schema)) else v
  }

  function CanonField(v: Value, f: Field): Value
    decreases v, 1
  {
    if f.repeated && v.List? then
      List(seq(|v.items|, i requires 0 <= i < |v.items| => CanonItem(v.items[i], f.kind)))
    else if v == Dbl(NEG_ZERO_BITS) then Dbl(ZERO_BITS)
    else CanonItem(v, f.kind)
  }

  function CanonMsg(m: Msg, schema: Schema): (r: Msg)
    ensures |r.slots| == |m.slots|
    decreases m, 2
  {
    Msg(seq(|m.slots|, i requires 0 <= i < |m.slots| =>
      if i < |schema.fields| then CanonField(m.slots[i], schema.fields[i]) else m.slots[i]))
  }

  lemma IndexOfField(fields: seq<Field>, i: nat)
    requires i < |fields|
    requires forall j, k :: 0 <= j < k < |fields| ==> fields[j].number != fields[k].number
    ensures IndexOf(fields, fields[i].number) == i
  {
    assert IndexOf(fields, fields[i].number) <= i;
  }

  lemma SignedRoundTrip(n: int, modulus: int)
    requires modulus == TWO32 || modulus == TWO64
    requires -modulus / 2 <= n < modulus / 2
    ensures Signed(Unsigned64(n) % modulus, modulus) == n
  {
  }

  lemma NumberRoundTrip(v: Value, kind: Kind, t: Bytes)
    requires ItemOk(v, kind) && (kind.Int64? || kind.Int32? || kind.Uint32?)
    ensures ReadItem(kind, EncodeItem(v, kind) + t) == Got(v, t)
  {
    if kind.Uint32? {
      Uint32RoundTrip(v.n, t);
    } else {
      var u := Unsigned64(v.n);
      TenBytesAreEnough(u);
      VarintRoundTrip(u, 10, t);
      SignedRoundTrip(v.n, if kind.Int64? then TWO64 else TWO32);
      assert EncodeItem(v, kind) == Varint(u);
    }
  }

  lemma TextRoundTrip(text: Bytes, t: Bytes)
    requires |text| < TWO32
    ensures ReadItem(Text, Varint(|text|) + text + t) == Got(Str(text), t)
  {
    Uint32RoundTrip(|text|, text + t);
    assert Varint(|text|) + text + t == Varint(|text|) + (text + t);
    assert (text + t)[..|text|] == text && (text + t)[|text|..] == t;
  }

  lemma {:induction false} ItemRoundTrip(v: Value, kind: Kind, t: Bytes)
    requires ItemOk(v, kind) && (kind.Message? ==> ValidSchema(kind.schema))
    ensures ReadItem(kind, EncodeItem(v, kind) + t) == Got(CanonItem(v, kind), t)
    decreases v, 2
  {
    match kind
    case Int64 => NumberRoundTrip(v, kind, t);
    case Int32 => NumberRoundTrip(v, kind, t);
    case Uint32 => NumberRoundTrip(v, kind, t);
    case Bool =>
      assert ([if v.on then 1 else 0] + t)[1..] == t;
    case Double =>
      assert (v.bits + t)[..8] == v.bits && (v.bits + t)[8..] == t;
    case Text => TextRoundTrip(v.text, t);
    case Message(schema) => SubmessageRoundTrip(v.msg, schema, t);
  }

  // The nested decode ends exactly at its declared end, whatever follows.
  lemma {:induction false} SubmessageRoundTrip(m: Msg, schema: Schema, t: Bytes)
    requires MsgOk(m, schema) && ValidSchema(schema) && |EncodeMsg(m, schema)| < TWO32
    ensures ReadItem(Message(schema), EncodeItem(Sub(m), Message(schema)) + t) == Got(Sub(CanonMsg(m, schema)), t)
    decreases m, 7
  {
    var body := EncodeMsg(m, schema);
    var item := EncodeItem(Sub(m), Message(schema)) + t;
    assert item == Varint(|body|) + (body + t);
    assert ReadUint32(item) == Got(|body|, body + t) by {
      Uint32RoundTrip(|body|, body + t);
    }
    assert DecodeLoop(schema, body + t, |t|, Base(schema)) == Done(CanonMsg(m, schema), t, false) by {
      MsgRoundTrip(m, schema);
      DecodeLoopExtends(schema, body, 0, Base(schema), t, |t|);
      assert [] + t == t;
    }
  }

  // One field with its tag.
  lemma {:induction false} TaggedRead(schema: Schema, i: nat, v: Value, m: Msg)
    requires ValidSchema(schema) && i < |schema.fields| && ItemOk(v, schema.fields[i].kind)
    requires |m.slots| == |schema.fields|
    ensures var f := schema.fields[i];
            Reads(schema, Varint(Tag(f)) + EncodeItem(v, f.kind), m, Put(m, i, f, CanonItem(v, f.kind)))
    decreases v, 3
  {
    var f := schema.fields[i];
    var item := EncodeItem(v, f.kind);
    var bs := Varint(Tag(f)) + item;
    Uint32RoundTrip(Tag(f), item);
    IndexOfField(schema.fields, i);
    assert Tag(f) / 8 == f.number && Known(schema, Tag(f));
    assert item + [] == item;
    ItemRoundTrip(v, f.kind, []);
    var next := Put(m, i, f, CanonItem(v, f.kind));
    assert DecodeLoop(schema, [], 0, next) == Done(next, [], false);
    assert |bs| > 0;
  }

  /** A singular field sent twice keeps the second value only. For a submessage that means replaced, where
      the Encoding guide ("Last One Wins") would have the two merged. */
  lemma LastValueWins(schema: Schema, i: nat, first: Value, second: Value, m: Msg)
    requires ValidSchema(schema) && i < |schema.fields| && !schema.fields[i].repeated
    requires ItemOk(first, schema.fields[i].kind) && ItemOk(second, schema.fields[i].kind)
    requires |m.slots| == |schema.fields|
    ensures var f := schema.fields[i];
            Reads(schema, Varint(Tag(f)) + EncodeItem(first, f.kind) + (Varint(Tag(f)) + EncodeItem(second, f.kind)),
                  m, Msg(m.slots[i := CanonItem(second, f.kind)]))
  {
    var f := schema.fields[i];
    var between := Put(m, i, f, CanonItem(first, f.kind));
    TaggedRead(schema, i, first, m);
    TaggedRead(schema, i, second, between);
    DecodeComposes(schema, Varint(Tag(f)) + EncodeItem(first, f.kind),
                   Varint(Tag(f)) + EncodeItem(second, f.kind), m, between);
    assert between.slots[i := CanonItem(second, f.kind)] == m.slots[i := CanonItem(second, f.kind)];
  }

  lemma {:induction false} ItemsRead(schema: Schema, i: nat, items: seq<Value>, m: Msg, prefix: seq<Value>)
    requires ValidSchema(schema) && i < |schema.fields| && schema.fields[i].repeated
    requires forall k :: 0 <= k < |items| ==> ItemOk(items[k], schema.fields[i].kind)
    requires |m.slots| == |schema.fields| && m.slots[i] == List(prefix)
    ensures var f := schema.fields[i];
            var canon := seq(|items|, k requires 0 <= k < |items| => CanonItem(items[k], f.kind));
            Reads(schema, EncodeItems(items, f), m, Msg(m.slots[i := List(prefix + canon)]))
    decreases items, 4
  {
    var f := schema.fields[i];
    var canon := seq(|items|, k requires 0 <= k < |items| => CanonItem(items[k], f.kind));
    if items == [] {
      assert prefix + canon == prefix;
      assert m.slots[i := List(prefix)] == m.slots;
    } else {
      var head := CanonItem(items[0], f.kind);
      var next := Put(m, i, f, head);
      TaggedRead(schema, i, items[0], m);
      ItemsRead(schema, i, items[1..], next, prefix + [head]);
      var tail := seq(|items| - 1, k requires 0 <= k < |items| - 1 => CanonItem(items[1..][k], f.kind));
      assert prefix + [head] + tail == prefix + canon;
      assert next.slots[i := List(prefix + canon)] == m.slots[i := List(prefix + canon)];
      DecodeComposes(schema, Varint(Tag(f)) + EncodeItem(items[0], f.kind), EncodeItems(items[1..], f), m, next);
    }
  }

  lemma {:induction false} FieldRead(schema: Schema, i: nat, v: Value, m: Msg)
    requires ValidSchema(schema) && i < |schema.fields| && FieldOk(v, schema.fields[i])
    requires |m.slots| == |schema.fields| && m.slots[i] == Default(schema.fields[i])
    ensures var f := schema.fields[i];
            Reads(schema, EncodeField(v, f), m, Msg(m.slots[i := CanonField(v, f)]))
    decreases v, 5
  {
    var f := schema.fields[i];
    if f.repeated {
      ItemsRead(schema, i, v.items, m, []);
      var canon := seq(|v.items|, k requires 0 <= k < |v.items| => CanonItem(v.items[k], f.kind));
      assert [] + canon == canon;
      assert CanonField(v, f) == List(canon);
    } else if Elided(v) {
      assert CanonField(v, f) == Default(f);
      assert m.slots[i := Default(f)] == m.slots;
    } else {
      TaggedRead(schema, i, v, m);
    }
  }

  // The first k fields have been read, the others are still as createBase left them.
  function Partly(m: Msg, schema: Schema, k: nat): (r: Msg)
    requires |m.slots| == |schema.fields| && k <= |m.slots|
    ensures |r.slots| == |m.slots|
  {
    Msg(CanonMsg(m, schema).slots[..k] + Base(schema).slots[k..])
  }

  lemma {:induction false} FieldsRead(m: Msg, schema: Schema, k: nat)
    requires MsgOk(m, schema) && ValidSchema(schema) && k <= |m.slots|
    ensures Reads(schema, EncodeFields(m.slots[k..], schema.fields[k..]), Partly(m, schema, k), CanonMsg(m, schema))
    decreases m, 5, |m.slots| - k
  {
    var canon := CanonMsg(m, schema);
    if k == |m.slots| {
      assert Partly(m, schema, k).slots == canon.slots;
    } else {
      var f := schema.fields[k];
      var here, next := Partly(m, schema, k), Partly(m, schema, k + 1);
      FieldRead(schema, k, m.slots[k], here);
      assert here.slots[k := CanonField(m.slots[k], f)] == next.slots;
      FieldsRead(m, schema, k + 1);
      DecodeComposes(schema, EncodeField(m.slots[k], f),
                     EncodeFields(m.slots[k + 1..], schema.fields[k + 1..]), here, next);
      assert m.slots[k..][1..] == m.slots[k + 1..] && schema.fields[k..][1..] == schema.fields[k + 1..];
    }
  }

  /** Round trip. Every message the writer accepts comes back from its encoding, read to the last byte,
      unchanged but for -0, which comes back as 0. */
  lemma {:induction false} MsgRoundTrip(m: Msg, schema: Schema)
    requires MsgOk(m, schema) && ValidSchema(schema)
    ensures Decode(schema, EncodeMsg(m, schema)) == Done(CanonMsg(m, schema), [], false)
    decreases m, 6
  {
    FieldsRead(m, schema, 0);
    assert Partly(m, schema, 0) == Base(schema);
    assert m.slots[0..] == m.slots && schema.fields[0..] == schema.fields;
  }

  // ----- exactly when the message comes back

  ghost predicate ItemHasNegZero(v: Value, kind: Kind)
    decreases v, 0
  {
    v.Sub? && kind.Message? && HasNegZero(v.msg, kind.schema)
  }

  ghost predicate FieldHasNegZero(v: Value, f: Field)
    decreases v, 1
  {
    if f.repeated && v.List? then exists i :: 0 <= i < |v.items| && ItemHasNegZero(v.items[i], f.kind)
    else v == Dbl(NEG_ZERO_BITS) || ItemHasNegZero(v, f.kind)
  }

  /** Some singular double, here or in a submessage, is -0. */
  ghost predicate HasNegZero(m: Msg, schema: Schema)
    decreases m, 2
  {
    exists i :: 0 <= i < |m.slots| && i < |schema.fields| && FieldHasNegZero(m.slots[i], schema.fields[i])
  }

  lemma {:induction false} CanonItemSame(v: Value, kind: Kind)
    ensures CanonItem(v, kind) == v <==> !ItemHasNegZero(v, kind)
    decreases v, 0
  {
    if v.Sub? && kind.Message? {
      CanonMsgSame(v.msg, kind.schema);
    }
  }

  lemma {:induction false} CanonFieldSame(v: Value, f: Field)
    ensures CanonField(v, f) == v <==> !FieldHasNegZero(v, f)
    decreases v, 1
  {
    if f.repeated && v.List? {
      forall i | 0 <= i < |v.items|
        ensures CanonItem(v.items[i], f.kind) == v.items[i] <==> !ItemHasNegZero(v.items[i], f.kind)
      {
        CanonItemSame(v.items[i], f.kind);
      }
      var canon := CanonField(v, f).items;
      assert |canon| == |v.items| && forall i :: 0 <= i < |canon| ==> canon[i] == CanonItem(v.items[i], f.kind);
      assert canon == v.items <==> forall i :: 0 <= i < |canon| ==> canon[i] == v.items[i];
    } else {
      CanonItemSame(v, f.kind);
    }
  }

  lemma {:induction false} CanonMsgSame(m: Msg, schema: Schema)
    ensures CanonMsg(m, schema) == m <==> !HasNegZero(m, schema)
    decreases m, 2
  {
    forall i | 0 <= i < |m.slots| && i < |schema.fields|
      ensures CanonField(m.slots[i], schema.fields[i]) == m.slots[i] <==> !FieldHasNegZero(m.slots[i], schema.fields[i])
    {
      CanonFieldSame(m.slots[i], schema.fields[i]);
    }
    var canon := CanonMsg(m, schema).slots;
    assert canon == m.slots <==> forall i :: 0 <= i < |canon| ==> canon[i] == m.slots[i];
  }

  /** Decoding an encoded message gives it back exactly when it holds no -0. */
  lemma RoundTripExactly(m: Msg, schema: Schema)
    requires MsgOk(m, schema) && ValidSchema(schema)
    ensures Decode(schema, EncodeMsg(m, schema)) == Done(m, [], false) <==> !HasNegZero(m, schema)
  {
    MsgRoundTrip(m, schema);
    CanonMsgSame(m, schema);
  }

  /** -0 is lost: a message that is otherwise as createBase made it, with -0 in a double, comes back with
      0 there. */
  lemma NegativeZeroIsLost(schema: Schema, i: nat)
    requires ValidSchema(schema) && i < |schema.fields|
    requires schema.fields[i].kind.Double? && !schema.fields[i].repeated
    ensures var minus := Msg(Base(schema).slots[i := Dbl(NEG_ZERO_BITS)]);
            && MsgOk(minus, schema) && minus != Base(schema)
            && Decode(schema, EncodeMsg(minus, schema)) == Done(Base(schema), [], false)
  {
    var base := Base(schema);
    var minus := Msg(base.slots[i := Dbl(NEG_ZERO_BITS)]);
    assert minus.slots[i] == Dbl(NEG_ZERO_BITS) && base.slots[i] == Dbl(ZERO_BITS);
    assert MsgOk(minus, schema);
    assert CanonMsg(minus, schema).slots == base.slots by {
      assert forall k :: 0 <= k < |base.slots| ==> CanonField(minus.slots[k], schema.fields[k]) == base.slots[k];
    }
    MsgRoundTrip(minus, schema);
  }
}
