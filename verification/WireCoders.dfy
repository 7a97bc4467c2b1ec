/** The coders in the form of the source: encode appends to a writer with a stack of forks, decode
    moves a reader along and fills in the message. Each is proved to compute the functions of
    WireMessages. */
module WireCoders {
  import opened Common
  import opened Wire
  import opened WireMessages

  /** BinaryWriter: the bytes of the innermost fork, and those of the forks around it. */
  class BinaryWriter {
    var buf: Bytes
    var stack: seq<Bytes>

    constructor ()
      ensures buf == [] && stack == []
    {
      buf, stack := [], [];
    }

    method Uint32(v: nat)
      modifies this
      ensures buf == old(buf) + Varint(v) && stack == old(stack)
    {
      buf := buf + Varint(v);
    }

    method Raw(bytes: Bytes)
      modifies this
      ensures buf == old(buf) + bytes && stack == old(stack)
    {
      buf := buf + bytes;
    }

    method Fork()
      modifies this
      ensures buf == [] && stack == old(stack) + [old(buf)]
    {
      stack := stack + [buf];
      buf := [];
    }

    // Ends the fork and writes its bytes, length first, to the one around it.
    method Join()
      requires stack != []
      modifies this
      ensures stack == old(stack)[..|old(stack)| - 1]
      ensures buf == old(stack)[|old(stack)| - 1] + Varint(|old(buf)|) + old(buf)
    {
      var chunk := buf;
      buf := stack[|stack| - 1];
      stack := stack[..|stack| - 1];
      Uint32(|chunk|);
      Raw(chunk);
    }
  }

  // The payload of one value; the tag is already written.
  method WriteItem(v: Value, kind: Kind, writer: BinaryWriter)
    modifies writer
    ensures writer.buf == old(writer.buf) + EncodeItem(v, kind) && writer.stack == old(writer.stack)
    decreases v, 2
  {
    match kind {
      case Message(schema) =>
        if v.Sub? {
          writer.Fork();
          Encode(v.msg, schema, writer);
          writer.Join();
          assert [] + EncodeMsg(v.msg, schema) == EncodeMsg(v.msg, schema);
        }
      case Text =>
        if v.Str? {
          writer.Uint32(|v.text|);
          writer.Raw(v.text);
        }
      case _ =>
        writer.Raw(EncodeItem(v, kind));
    }
  }

  /** encode: the fields in the order of the schema, defaults left out, repeated fields in a loop. */
  method Encode(m: Msg, schema: Schema, writer: BinaryWriter)
    modifies writer
    ensures writer.buf == old(writer.buf) + EncodeMsg(m, schema) && writer.stack == old(writer.stack)
    decreases m, 6
  {
    var k := 0;
    assert m.slots[0..] == m.slots && schema.fields[0..] == schema.fields;
    while k < |m.slots| && k < |schema.fields|
      invariant k <= |m.slots| && k <= |schema.fields|
      invariant writer.stack == old(writer.stack)
      invariant writer.buf + EncodeFields(m.slots[k..], schema.fields[k..]) == old(writer.buf) + EncodeMsg(m, schema)
    {
      var v, f := m.slots[k], schema.fields[k];
      ghost var before := writer.buf;
      if f.repeated {
        if v.List? {
          WriteItems(v, f, writer);
        }
      } else if !Elided(v) {
        writer.Uint32(Tag(f));
        WriteItem(v, f.kind, writer);
      }
      assert writer.buf == before + EncodeField(v, f);
      assert m.slots[k..][1..] == m.slots[k + 1..] && schema.fields[k..][1..] == schema.fields[k + 1..];
      k := k + 1;
    }
  }

  method WriteItems(v: Value, f: Field, writer: BinaryWriter)
    requires v.List?
    modifies writer
    ensures writer.buf == old(writer.buf) + EncodeItems(v.items, f) && writer.stack == old(writer.stack)
    decreases v, 3
  {
    var k := 0;
    assert v.items[0..] == v.items;
    while k < |v.items|
      invariant k <= |v.items|
      invariant writer.stack == old(writer.stack)
      invariant writer.buf + EncodeItems(v.items[k..], f) == old(writer.buf) + EncodeItems(v.items, f)
    {
      ghost var before := writer.buf;
      writer.Uint32(Tag(f));
      WriteItem(v.items[k], f.kind, writer);
      assert v.items[k..][1..] == v.items[k + 1..];
      assert writer.buf == before + (Varint(Tag(f)) + EncodeItem(v.items[k], f.kind));
      k := k + 1;
    }
  }

  /** BinaryReader: a buffer and a position in it. */
  class BinaryReader {
    const buf: Bytes
    var pos: nat

    ghost predicate Valid()
      reads this
    {
      pos <= |buf|
    }

    // The bytes still to be read.
    function Rest(): (bs: Bytes)
      requires Valid()
      reads this
      ensures |bs| == |buf| - pos
    {
      buf[pos..]
    }

    constructor (buf: Bytes)
      ensures this.buf == buf && pos == 0
    {
      this.buf := buf;
      pos := 0;
    }

    method Uint32() returns (r: Option<nat>)
      requires Valid()
      modifies this
      ensures Valid()
      ensures match ReadUint32(old(Rest()))
              case Got(v, rest) => r == Some(v) && Rest() == rest && pos > old(pos)
              case Bad => r.None?
    {
      match ReadUint32(Rest()) {
        case Got(v, rest) =>
          ReadUint32Suffix(Rest());
          pos := |buf| - |rest|;
          r := Some(v);
        case Bad =>
          r := None;
      }
    }

    // int64, int32, uint32, bool, string or double; longToNumber included.
    method Scalar(kind: Kind) returns (r: Option<Value>)
      requires Valid() && !kind.Message?
      modifies this
      ensures Valid()
      ensures match ReadItem(kind, old(Rest()))
              case Got(v, rest) => r == Some(v) && Rest() == rest && pos >= old(pos)
              case Bad => r.None?
    {
      match ReadItem(kind, Rest()) {
        case Got(v, rest) =>
          ScalarSuffix(kind, Rest());
          pos := |buf| - |rest|;
          r := Some(v);
        case Bad =>
          r := None;
      }
    }

    method Skip(wireType: nat) returns (ok: bool)
      requires Valid()
      modifies this
      ensures Valid()
      ensures match Wire.Skip(old(Rest()), wireType, None)
              case Got(_, rest) => ok && Rest() == rest && pos >= old(pos)
              case Bad => !ok
    {
      match Wire.Skip(Rest(), wireType, None) {
        case Got(_, rest) =>
          SkipSuffix(Rest(), wireType, None);
          pos := |buf| - |rest|;
          ok := true;
        case Bad =>
          ok := false;
      }
    }
  }

  /** decode: reads fields up to the end of the declared length, or of the buffer, and then returns the
      message; None stands for the errors the reader throws. */
  method Decode(reader: BinaryReader, schema: Schema, length: Option<nat>) returns (r: Option<Msg>)
    requires reader.Valid()
    modifies reader
    ensures reader.Valid()
    ensures var stop := if length.Some? then old(|reader.Rest()|) - length.value else 0;
            match DecodeLoop(schema, old(reader.Rest()), stop, Base(schema))
            case Done(m, rest, _) => r == Some(m) && reader.Rest() == rest && reader.pos >= old(reader.pos)
            case Failed => r.None?
    decreases |reader.buf| - reader.pos, 1
  {
    var end := if length.Some? then reader.pos + length.value else |reader.buf|;
    var message := Base(schema);
    ghost var outcome := DecodeLoop(schema, reader.Rest(), |reader.buf| - end, message);
    while reader.pos < end
      invariant reader.Valid() && reader.pos >= old(reader.pos)
      invariant |message.slots| == |schema.fields|
      invariant DecodeLoop(schema, reader.Rest(), |reader.buf| - end, message) == outcome
      decreases |reader.buf| - reader.pos
    {
      var tag := reader.Uint32();
      if tag.None? {
        return None;
      }
      var i := IndexOf(schema.fields, tag.value / 8);
      if i < |schema.fields| && Tag(schema.fields[i]) == tag.value {
        var v := ReadValue(reader, schema.fields[i].kind);
        if v.None? {
          return None;
        }
        message := Put(message, i, schema.fields[i], v.value);
        continue;
      }
      if tag.value % 8 == 4 || tag.value == 0 {
        break;
      }
      var ok := reader.Skip(tag.value % 8);
      if !ok {
        return None;
      }
    }
    r := Some(message);
  }

  // The value of one field: a scalar, or a nested decode of the declared length.
  method ReadValue(reader: BinaryReader, kind: Kind) returns (r: Option<Value>)
    requires reader.Valid()
    modifies reader
    ensures reader.Valid()
    ensures match ReadItem(kind, old(reader.Rest()))
            case Got(v, rest) => r == Some(v) && reader.Rest() == rest && reader.pos >= old(reader.pos)
            case Bad => r.None?
    decreases |reader.buf| - reader.pos, 2
  {
    if !kind.Message? {
      r := reader.Scalar(kind);
      return;
    }
    var length := reader.Uint32();
    if length.None? {
      return None;
    }
    var m := Decode(reader, kind.schema, length);
    r := if m.Some? then Some(Sub(m.value)) else None;
  }

  // ----- what the primitives leave is the end of what they were given

  ghost predicate IsEndOf(rest: Bytes, bs: Bytes) {
    |rest| <= |bs| && rest == bs[|bs| - |rest|..]
  }

  lemma {:induction false} ReadVarintSuffix(bs: Bytes, budget: nat)
    requires ReadVarint(bs, budget).Got?
    ensures IsEndOf(ReadVarint(bs, budget).rest, bs)
  {
    if bs[0] >= 128 {
      ReadVarintSuffix(bs[1..], budget - 1);
    }
  }

  lemma ReadUint32Suffix(bs: Bytes)
    requires ReadUint32(bs).Got?
    ensures IsEndOf(ReadUint32(bs).rest, bs)
  {
    ReadVarintSuffix(bs, 10);
  }

  lemma ScalarSuffix(kind: Kind, bs: Bytes)
    requires !kind.Message? && ReadItem(kind, bs).Got?
    ensures IsEndOf(ReadItem(kind, bs).rest, bs)
  {
    if !kind.Double? {
      ReadVarintSuffix(bs, 10);
    }
  }

  lemma {:induction false} SkipSuffix(bs: Bytes, wireType: nat, group: Option<nat>)
    requires Wire.Skip(bs, wireType, group).Got?
    ensures IsEndOf(Wire.Skip(bs, wireType, group).rest, bs)
    decreases |bs|, 1
  {
    if wireType == 0 || wireType == 2 {
      ReadVarintSuffix(bs, 10);
    } else if wireType == 3 {
      SkipGroupSuffix(bs, group);
    }
  }

  lemma {:induction false} SkipGroupSuffix(bs: Bytes, group: Option<nat>)
    requires SkipGroup(bs, group).Got?
    ensures IsEndOf(SkipGroup(bs, group).rest, bs)
    decreases |bs|, 0
  {
    ReadUint32Suffix(bs);
    var Got(tag, rest) := ReadUint32(bs);
    if tag % 8 != 4 {
      SkipSuffix(rest, tag % 8, Some(tag / 8));
      SkipGroupSuffix(Wire.Skip(rest, tag % 8, Some(tag / 8)).rest, group);
    }
  }
}
