/** Which type of field carries which type of value, in both directions, with the ranges of the integer
    types on either side. */
module FieldTypes {
  import opened Wrappers
  import opened KObjects
  import opened Containers
  import opened Encoding
  import opened Binary32
  import opened Decoding

  /** The values from `lo` up to but not including `hi`. */
  datatype Range = Range(lo: int, hi: int) {
    predicate Has(n: int) {
      lo <= n < hi
    }

    predicate Within(other: Range) {
      other.lo <= lo && hi <= other.hi
    }
  }

  const INT8: Range := Range(-0x80, 0x80)
  const INT16: Range := Range(-0x8000, 0x8000)
  const INT32: Range := Range(-0x8000_0000, 0x8000_0000)
  const INT64: Range := Range(-0x8000_0000_0000_0000, 0x8000_0000_0000_0000)
  const UINT8: Range := Range(0, 0x100)
  const UINT16: Range := Range(0, 0x1_0000)
  const UINT32: Range := Range(0, 0x1_0000_0000)
  const UINT64: Range := Range(0, 0x1_0000_0000_0000_0000)

  /** What the integer fields of a container can hold. */
  function FieldRange(f: Field): Option<Range> {
    match f
    case Int8Field(_) => Some(INT8)
    case Int16Field(_) => Some(INT16)
    case Int32Field(_) => Some(INT32)
    case Int64Field(_) => Some(INT64)
    case UInt8Field(_) => Some(UINT8)
    case UInt16Field(_) => Some(UINT16)
    case UInt32Field(_) => Some(UINT32)
    case UInt64Field(_) => Some(UINT64)
    case _ => None
  }

  /** The integer a field carries, if it is an integer field. */
  function IntegerIn(f: Field): Option<int> {
    match f
    case UInt8Field(u) => Some(u)
    case Int8Field(i) => Some(i)
    case UInt16Field(u) => Some(u)
    case Int16Field(i) => Some(i)
    case UInt32Field(u) => Some(u)
    case Int32Field(i) => Some(i)
    case UInt64Field(u) => Some(u)
    case Int64Field(i) => Some(i)
    case _ => None
  }

  /** What the storage class of an integer atom can hold: H, I and J of include/k.h. */
  function AtomRange(a: Atom): Option<Range> {
    match a
    case Short(_) => Some(INT16)
    case Int(_, _) => Some(INT32)
    case Long(_, _) => Some(INT64)
    case _ => None
  }

  function IntegerOf(a: Atom): Option<int> {
    match a
    case Short(h) => Some(h)
    case Int(_, i) => Some(i)
    case Long(_, j) => Some(j)
    case _ => None
  }

  // ---------------------------------------------------------------------------------------------
  // From kdb+ to a field.

  /** Every short, int-like or long-like atom travels in a field with its value and of exactly its range,
      so that no value is cut off and none needs more room than it had. */
  lemma IntegersKeepTheirRange(a: Atom)
    requires AtomRange(a).Some?
    ensures AtomField(a).Some?
    ensures FieldRange(AtomField(a).value) == AtomRange(a)
    ensures IntegerIn(AtomField(a).value) == IntegerOf(a)
  {
  }

  /** Which atoms a given field can have come from, for every kind of field; the rest are never sent. */
  lemma FieldComesFrom(a: Atom, f: Field)
    ensures AtomField(a) == Some(f) <==>
            match f
            case BoolField(b) => a == Boolean(b)
            case WCharField(c) => a == Char(c)
            case StringField(s) => a == Symbol(s)
            case FloatField(e) => a == Real(e)
            case DoubleField(d) => a == Float(d)
            case Int16Field(i) => a == Short(i)
            case Int32Field(i) => a.Int? && a.i == i
            case Int64Field(i) => a.Long? && a.j == i
            case _ => false
  {
  }

  /** The same for the elements of a vector, through the switch of their own. */
  lemma ElementFieldComesFrom(v: Vector, k: nat, f: Field)
    requires k < v.Count()
    ensures ElementField(v, k) == Some(f) <==>
            match f
            case BoolField(b) => v.At(k) == Boolean(b)
            case WCharField(c) => v.At(k) == Char(c)
            case StringField(s) => v.At(k) == Symbol(s)
            case FloatField(e) => v.At(k) == Real(e)
            case DoubleField(d) => v.At(k) == Float(d)
            case Int16Field(i) => v.At(k) == Short(i)
            case Int32Field(i) => v.At(k).Int? && v.At(k).i == i
            case Int64Field(i) => v.At(k).Long? && v.At(k).j == i
            case _ => false
  {
  }

  // ---------------------------------------------------------------------------------------------
  // From a field to kdb+.

  /** What becomes of an integer field, in range: its kdb+ type, which has room for every value of the
      field unless it is a float, and its exact value. An unsigned 32-bit one loses
      2^32 from 2^31 on, although it is put into a long; an unsigned 64-bit one is rounded to a float. */
  lemma IntegerArrivesAs(round: Rounding, f: Field)
    requires FieldRange(f).Some? && FieldRange(f).value.Has(IntegerIn(f).value)
    ensures var x, n := Decode(round, f, None), IntegerIn(f).value;
            && x.AtomK?
            && (x.atom.Short? <==> f.Int8Field?)
            && (x.atom.Int? <==> f.UInt8Field? || f.UInt16Field? || f.Int16Field? || f.Int32Field?)
            && (x.atom.Int? ==> x.atom.ti == KI)
            && (x.atom.Long? <==> f.UInt32Field? || f.Int64Field?)
            && (x.atom.Long? ==> x.atom.tj == KJ)
            && (x.atom.Float? <==> f.UInt64Field?)
            && (x.atom.Float? ==> x.atom.f == ToBinary32(n) as real)
            && (!x.atom.Float? ==>
                  && AtomRange(x.atom).Some? && FieldRange(f).value.Within(AtomRange(x.atom).value)
                  && IntegerOf(x.atom) == Some(if f.UInt32Field? && n >= 0x8000_0000 then n - 0x1_0000_0000 else n))
  {
  }

  /** Which fields a given value can have come from, for the values that are not numbers made of integers
      or containers, the raw attachment included. */
  lemma ValueComesFrom(round: Rounding, f: Field, attachment: Option<string>, x: K)
    requires FieldRange(f).None? && !f.MapField? && !f.StreamField?
    ensures Decode(round, f, attachment) == x <==>
            match x
            case AtomK(Boolean(b)) => f == BoolField(b)
            case AtomK(Char(c)) => f == WCharField(c)
            case AtomK(Real(e)) => f == FloatField(e)
            case AtomK(Float(d)) => f.DoubleField? && round(f.f) == d
            case AtomK(Symbol(s)) => (f.NullField? || f.DestinationField? || f.SmfField?) && attachment == Some(s)
            case VectorK(Chars(s)) => f == StringField(s) || (f == UnknownField && s == "UNKNOWN_DATA_TYPE")
            case Nil => f.ByteArrayField? || ((f.NullField? || f.DestinationField? || f.SmfField?) && attachment.None?)
            case _ => false
  {
  }

  /** A map arrives as a dictionary with the names of its entries for keys, in order, and a stream as a
      list; of every entry the value is what its field arrives as. */
  lemma ContainerArrivesAs(round: Rounding, entries: seq<Entry>, attachment: Option<string>)
    ensures var m, s := Decode(round, MapField(entries), attachment), Decode(round, StreamField(entries), attachment);
            && m.DictK? && m.keys.VectorK? && m.keys.v.Symbols? && m.values == s && s.ListK?
            && |m.keys.v.ss| == |s.items| == |entries|
            && forall k :: 0 <= k < |entries| ==>
                 && (entries[k].name.Some? ==> m.keys.v.ss[k] == entries[k].name.value)
                 && s.items[k] == Decode(round, entries[k].field, None)
  {
    forall k | 0 <= k < |entries|
      ensures DecodeAll(round, entries)[k] == Decode(round, entries[k].field, None)
    {
      DecodeAllAt(round, entries, k);
    }
  }
}
