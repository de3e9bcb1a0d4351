/** kdb+ values as include/k.h lays them out: an atom, a typed vector, a general list, a dictionary or a
    table. Types that share a storage class (`i` or `j` of struct k0) share a constructor. */
module KObjects {

  /** int, month, date, minute, second, time: all stored in `i`. */
  datatype IntType = KI | KM | KD | KU | KV | KT

  /** long, timestamp, timespan: all stored in `j`. */
  datatype LongType = KJ | KP | KN

  datatype Atom =
    | Boolean(b: bool)
    | Guid(u: nat)
    | Byte(g: int)
    | Short(h: int)
    | Int(ti: IntType, i: int)
    | Long(tj: LongType, j: int)
    | Real(e: real)
    | Float(f: real)
    | Char(c: char)
    | Symbol(s: string)

  /** A vector holds elements of one type. */
  datatype Vector =
    | Booleans(bs: seq<bool>)
    | Guids(us: seq<nat>)
    | Bytes(gs: seq<int>)
    | Shorts(hs: seq<int>)
    | Ints(ti: IntType, ints: seq<int>)
    | Longs(tj: LongType, longs: seq<int>)
    | Reals(es: seq<real>)
    | Floats(fs: seq<real>)
    | Chars(cs: string)
    | Symbols(ss: seq<string>)
  {
    function Count(): nat {
      match this
      case Booleans(bs) => |bs|
      case Guids(us) => |us|
      case Bytes(gs) => |gs|
      case Shorts(hs) => |hs|
      case Ints(_, ints) => |ints|
      case Longs(_, longs) => |longs|
      case Reals(es) => |es|
      case Floats(fs) => |fs|
      case Chars(cs) => |cs|
      case Symbols(ss) => |ss|
    }

    function At(k: nat): Atom
      requires k < Count()
    {
      match this
      case Booleans(bs) => Boolean(bs[k])
      case Guids(us) => Guid(us[k])
      case Bytes(gs) => Byte(gs[k])
      case Shorts(hs) => Short(hs[k])
      case Ints(t, ints) => Int(t, ints[k])
      case Longs(t, longs) => Long(t, longs[k])
      case Reals(es) => Real(es[k])
      case Floats(fs) => Float(fs[k])
      case Chars(cs) => Char(cs[k])
      case Symbols(ss) => Symbol(ss[k])
    }
  }

  /** `Nil` is the null pointer `(K)0`, which the decoder stores for fields it has no value for. */
  datatype K =
    | AtomK(atom: Atom)
    | VectorK(v: Vector)
    | ListK(items: seq<K>)
    | DictK(keys: K, values: K)
    | TableK(rows: nat)
    | Nil

  function Count(x: K): nat {
    match x
    case AtomK(_) => 1
    case VectorK(v) => v.Count()
    case ListK(items) => |items|
    case DictK(keys, _) => Count(keys)
    case TableK(rows) => rows
    case Nil => 0
  }

  /** What kdb+ guarantees of the objects it passes to C: no null pointers at any depth, and dictionaries
      with as many values as keys. */
  predicate WellFormed(x: K) {
    match x
    case ListK(items) => forall k :: 0 <= k < |items| ==> WellFormed(items[k])
    case DictK(keys, values) =>
      && WellFormed(keys) && WellFormed(values)
      && !values.AtomK? && Count(keys) == Count(values)
    case Nil => false
    case _ => true
  }

  /** The elements of a vector as general list items, from index `k` on. */
  function Elements(v: Vector, k: nat): (items: seq<K>)
    requires k <= v.Count()
    ensures |items| == v.Count() - k
    ensures forall n :: 0 <= n < |items| ==> items[n] == AtomK(v.At(k + n))
    decreases v.Count() - k
  {
    if k == v.Count() then [] else [AtomK(v.At(k))] + Elements(v, k + 1)
  }
}
