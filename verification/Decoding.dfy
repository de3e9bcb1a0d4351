/** What the decode functions of src/solace.c make of a received container. `round` stands for the C
    conversion of a 64-bit float to a 32-bit one. */
module Decoding {
  import opened Wrappers
  import opened KObjects
  import opened Containers
  import opened Binary32

  type Rounding = real -> real

  /** `(int)` of a 32-bit unsigned value. */
  function AsSigned32(u: int): int {
    if u >= 0x8000_0000 then u - 0x1_0000_0000 else u
  }

  function NameOf(e: Entry): string {
    if e.name.Some? then e.name.value else ""
  }

  function Names(entries: seq<Entry>): (names: seq<string>)
    ensures |names| == |entries|
    ensures forall k :: 0 <= k < |entries| ==> names[k] == NameOf(entries[k])
  {
    if entries == [] then [] else [NameOf(entries[0])] + Names(entries[1..])
  }

  /** decodeFromSolaceContainer. `attachment` is the raw attachment of the message; nested fields have
      none, and a type without a value then becomes a null pointer. */
  function Decode(round: Rounding, f: Field, attachment: Option<string>): K
    decreases f, 1
  {
    match f
    case BoolField(b) => AtomK(Boolean(b))
    case UInt8Field(u) => AtomK(Int(KI, u))
    case Int8Field(i) => AtomK(Short(i))
    case UInt16Field(u) => AtomK(Int(KI, u))
    case Int16Field(i) => AtomK(Int(KI, i))
    case UInt32Field(u) => AtomK(Long(KJ, AsSigned32(u)))
    case Int32Field(i) => AtomK(Int(KI, i))
    case UInt64Field(u) => AtomK(Float(ToBinary32(u) as real))
    case Int64Field(i) => AtomK(Long(KJ, i))
    case WCharField(c) => AtomK(Char(c))
    case StringField(s) => VectorK(Chars(s))
    case ByteArrayField(_) => Nil
    case FloatField(e) => AtomK(Real(e))
    case DoubleField(d) => AtomK(Float(round(d)))
    case MapField(entries) => DictK(VectorK(Symbols(Names(entries))), ListK(DecodeAll(round, entries)))
    case StreamField(entries) => ListK(DecodeAll(round, entries))
    case UnknownField => VectorK(Chars("UNKNOWN_DATA_TYPE"))
    case NullField => Leftover(attachment)
    case DestinationField(_) => Leftover(attachment)
    case SmfField(_) => Leftover(attachment)
  }

  /** The default branch of the switch. */
  function Leftover(attachment: Option<string>): K {
    if attachment.Some? then AtomK(Symbol(attachment.value)) else Nil
  }

  function DecodeEntry(round: Rounding, e: Entry): K
    decreases e, 2
  {
    match e case Entry(_, field) => Decode(round, field, None)
  }

  /** The loop of decodeFromSolaceStream and decodeFromSolaceMap. */
  function DecodeAll(round: Rounding, entries: seq<Entry>): (items: seq<K>)
    ensures |items| == |entries|
    decreases entries, 0
  {
    if entries == [] then [] else [DecodeEntry(round, entries[0])] + DecodeAll(round, entries[1..])
  }

  lemma {:induction false} DecodeAllAt(round: Rounding, entries: seq<Entry>, k: nat)
    requires k < |entries|
    ensures DecodeAll(round, entries)[k] == Decode(round, entries[k].field, None)
  {
    if k > 0 {
      DecodeAllAt(round, entries[1..], k - 1);
    }
  }

  lemma {:induction false} DecodeAllConcat(round: Rounding, a: seq<Entry>, b: seq<Entry>)
    ensures DecodeAll(round, a + b) == DecodeAll(round, a) + DecodeAll(round, b)
  {
    if a == [] {
      assert a + b == b;
    } else {
      assert (a + b)[1..] == a[1..] + b;
      DecodeAllConcat(round, a[1..], b);
    }
  }
}
