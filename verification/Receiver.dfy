/** The decode functions of src/solace.c in place: they walk a container with a cursor and grow lists. */
module Receivers {
  import opened Wrappers
  import opened KObjects
  import opened Containers
  import opened Binary32
  import opened Decoding

  lemma TakeNext<T>(s: seq<T>, k: nat)
    requires k < |s|
    ensures s[..k + 1] == s[..k] + [s[k]]
  {
  }

  /** decodeFromSolaceMap */
  method DecodeFromMap(round: Rounding, c: Container) returns (x: K)
    requires c.cursor == 0
    modifies c`cursor
    ensures x == Decode(round, MapField(c.entries), None)
    decreases c.entries, 1
  {
    var keys, vals := [], [];
    ghost var names, decoded := Names(c.entries), DecodeAll(round, c.entries);
    var more := c.HasNextField();
    while more
      invariant c.cursor <= |c.entries| && (more <==> c.cursor < |c.entries|)
      invariant keys == names[..c.cursor] && vals == decoded[..c.cursor]
      decreases |c.entries| - c.cursor
    {
      TakeNext(names, c.cursor);
      TakeNext(decoded, c.cursor);
      DecodeAllAt(round, c.entries, c.cursor);
      var e := c.GetNextField();
      keys := keys + [NameOf(e)];
      var myobj := DecodeNext(round, e);
      vals := vals + [myobj];
      more := c.HasNextField();
    }
    assert keys == names && vals == decoded;
    x := DictK(VectorK(Symbols(keys)), ListK(vals));
  }

  /** decodeFromSolaceStream */
  method DecodeFromStream(round: Rounding, c: Container) returns (x: K)
    requires c.cursor == 0
    modifies c`cursor
    ensures x == Decode(round, StreamField(c.entries), None)
    decreases c.entries, 1
  {
    var items := [];
    ghost var decoded := DecodeAll(round, c.entries);
    var more := c.HasNextField();
    while more
      invariant c.cursor <= |c.entries| && (more <==> c.cursor < |c.entries|)
      invariant items == decoded[..c.cursor]
      decreases |c.entries| - c.cursor
    {
      TakeNext(decoded, c.cursor);
      DecodeAllAt(round, c.entries, c.cursor);
      var e := c.GetNextField();
      var myelement := DecodeNext(round, e);
      items := items + [myelement];
      more := c.HasNextField();
    }
    assert items == decoded;
    x := ListK(items);
  }

  method DecodeNext(round: Rounding, e: Entry) returns (x: K)
    ensures x == DecodeEntry(round, e)
    decreases e, 0
  {
    var Entry(_, field) := e;
    x := DecodeFromContainer(round, field, None);
  }

  /** decodeFromSolaceContainer */
  method DecodeFromContainer(round: Rounding, f: Field, attachment: Option<string>) returns (x: K)
    ensures x == Decode(round, f, attachment)
    decreases f, 0
  {
    match f
    case BoolField(b) => x := AtomK(Boolean(b));
    case UInt8Field(u) => x := AtomK(Int(KI, u));
    case Int8Field(i) => x := AtomK(Short(i));
    case UInt16Field(u) => x := AtomK(Int(KI, u));
    case Int16Field(i) => x := AtomK(Int(KI, i));
    case UInt32Field(u) => x := AtomK(Long(KJ, AsSigned32(u)));
    case Int32Field(i) => x := AtomK(Int(KI, i));
    case UInt64Field(u) => x := AtomK(Float(ToBinary32(u) as real));
    case Int64Field(i) => x := AtomK(Long(KJ, i));
    case WCharField(c) => x := AtomK(Char(c));
    case StringField(s) => x := VectorK(Chars(s));
    case ByteArrayField(_) => x := Nil;
    case FloatField(e) => x := AtomK(Real(e));
    case DoubleField(d) => x := AtomK(Float(round(d)));
    case MapField(entries) => x := DecodeSub(round, Map, entries);
    case StreamField(entries) => x := DecodeSub(round, Stream, entries);
    case UnknownField => x := VectorK(Chars("UNKNOWN_DATA_TYPE"));
    case NullField => x := DecodeAttachment(attachment);
    case DestinationField(_) => x := DecodeAttachment(attachment);
    case SmfField(_) => x := DecodeAttachment(attachment);
  }

  /** The default branch: the raw attachment of the message, where there is one. */
  method DecodeAttachment(attachment: Option<string>) returns (x: K)
    ensures attachment.None? ==> x == Nil
    ensures attachment.Some? ==> x == AtomK(Symbol(attachment.value))
  {
    match attachment
    case None => x := Nil;
    case Some(a) => x := AtomK(Symbol(a));
  }

  /** A nested container, read through a handle of its own. */
  method DecodeSub(round: Rounding, kind: ContainerKind, entries: seq<Entry>) returns (x: K)
    ensures x == Decode(round, AsField(kind, entries), None)
    decreases entries, 2
  {
    var sub := new Container.Open(kind, entries);
    match kind
    case Map => x := DecodeFromMap(round, sub);
    case Stream => x := DecodeFromStream(round, sub);
  }
}
