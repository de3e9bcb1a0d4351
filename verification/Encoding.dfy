/** What the encode functions of src/solace.c add to a container and return. `global` is the global `rc`,
    which the dictionary encoder uses as its own result variable. */
module Encoding {
  import opened Wrappers
  import opened KObjects
  import opened Containers

  datatype Encoded = Encoded(entries: seq<Entry>, rc: int, global: int)

  /** encodeKdbAtomToSolaceContainer: the field added for an atom, or none and FAIL. */
  function AtomField(a: Atom): Option<Field> {
    match a
    case Symbol(s) => Some(StringField(s))
    case Char(c) => Some(WCharField(c))
    case Float(f) => Some(DoubleField(f))
    case Real(e) => Some(FloatField(e))
    case Long(_, j) => Some(Int64Field(j))
    case Int(_, i) => Some(Int32Field(i))
    case Short(h) => Some(Int16Field(h))
    case Boolean(b) => Some(BoolField(b))
    case Byte(_) => None
    case Guid(_) => None
  }

  /** encodeKdbVectorElementToSolaceContainer: a switch of its own over the vector types. */
  function ElementField(v: Vector, k: nat): Option<Field>
    requires k < v.Count()
  {
    match v
    case Symbols(ss) => Some(StringField(ss[k]))
    case Chars(cs) => Some(WCharField(cs[k]))
    case Floats(fs) => Some(DoubleField(fs[k]))
    case Reals(es) => Some(FloatField(es[k]))
    case Longs(_, longs) => Some(Int64Field(longs[k]))
    case Ints(_, ints) => Some(Int32Field(ints[k]))
    case Shorts(hs) => Some(Int16Field(hs[k]))
    case Booleans(bs) => Some(BoolField(bs[k]))
    case Bytes(_) => None
    case Guids(_) => None
  }

  function Code(f: Option<Field>): int {
    if f.Some? then SOLCLIENT_OK else SOLCLIENT_FAIL
  }

  function Entries(name: Option<string>, f: Option<Field>): seq<Entry> {
    if f.Some? then [Entry(name, f.value)] else []
  }

  /** The loop of encodeKdbVectorToSolaceContainer from element `k` on: it stops at the first failure. */
  function EncodeElements(v: Vector, k: nat): (seq<Entry>, int)
    requires k <= v.Count()
    decreases v.Count() - k
  {
    if k == v.Count() then ([], SOLCLIENT_OK) else
      var f := ElementField(v, k);
      if f.None? then ([], SOLCLIENT_FAIL) else
        var (rest, rc) := EncodeElements(v, k + 1);
        (Entries(None, f) + rest, rc)
  }

  /** One value of a dictionary: the field for it, if there is one. A table or a dictionary in the place of
      the value vector falls through the switch. */
  function ValueField(values: K, k: nat): Option<Field>
    requires k < Count(values)
  {
    match values
    case ListK(items) => if items[k].AtomK? then AtomField(items[k].atom) else None
    case VectorK(v) => ElementField(v, k)
    case _ => None
  }

  /** The loop of encodeKdbDictionaryToSolaceContainer from key `k` on: it goes on after a failure, and
      the last value decides the result. */
  function EncodePairs(names: seq<string>, values: K, k: nat, global: int): Encoded
    requires k <= |names| == Count(values) && !values.AtomK?
    decreases |names| - k
  {
    if k == |names| then Encoded([], global, global) else
      var f := ValueField(values, k);
      var rest := EncodePairs(names, values, k + 1, Code(f));
      Encoded(Entries(Some(names[k]), f) + rest.entries, rest.rc, rest.global)
  }

  predicate SymbolKeys(keys: K) {
    keys.VectorK? && keys.v.Symbols?
  }

  /** encodeKdbDictionaryToSolaceContainer: keys have to be symbols, and a global `rc` left at FAIL by an
      earlier dictionary ends it at once. */
  function EncodeDict(keys: K, values: K, global: int): Encoded
    requires Count(keys) == Count(values) && !values.AtomK?
  {
    if !SymbolKeys(keys) then Encoded([], SOLCLIENT_FAIL, global)
    else if global == SOLCLIENT_FAIL then Encoded([], global, global)
    else EncodePairs(keys.v.ss, values, 0, global)
  }

  /** encodeKdbVectorToSolaceContainer */
  function EncodeVector(x: K, global: int): Encoded
    requires WellFormed(x) && !x.AtomK? && !x.ListK?
  {
    match x
    case DictK(keys, values) => EncodeDict(keys, values, global)
    case TableK(_) => Encoded([], SOLCLIENT_FAIL, global)
    case VectorK(v) => var (entries, rc) := EncodeElements(v, 0); Encoded(entries, rc, global)
  }

  /** encodeToSolaceContainer */
  function Encode(x: K, global: int): Encoded
    requires WellFormed(x)
    decreases x, 1
  {
    match x
    case DictK(_, _) =>
      var d := EncodeVector(x, global);
      Encoded([Entry(None, MapField(d.entries))], d.rc, d.global)
    case AtomK(a) => Encoded(Entries(None, AtomField(a)), Code(AtomField(a)), global)
    case ListK(items) => EncodeItems(items, SOLCLIENT_FAIL, global)
    case _ => EncodeVector(x, global)
  }

  /** One item of a general list. The result for a nested list is that of addContainer alone. */
  function EncodeItem(x: K, global: int): Encoded
    requires WellFormed(x)
    decreases x, 2
  {
    match x
    case AtomK(a) => Encoded(Entries(None, AtomField(a)), Code(AtomField(a)), global)
    case ListK(_) =>
      var sub := Encode(x, global);
      Encoded([Entry(None, StreamField(sub.entries))], SOLCLIENT_OK, sub.global)
    case DictK(_, _) =>
      var sub := EncodeVector(x, global);
      Encoded([Entry(None, MapField(sub.entries))], sub.rc, sub.global)
    case _ =>
      var sub := EncodeVector(x, global);
      Encoded([Entry(None, StreamField(sub.entries))], sub.rc, sub.global)
  }

  /** The loop over a general list: every item overwrites the result of the one before. */
  function EncodeItems(items: seq<K>, rc: int, global: int): Encoded
    requires forall k :: 0 <= k < |items| ==> WellFormed(items[k])
    decreases items, 0
  {
    if items == [] then Encoded([], rc, global) else
      var first := EncodeItem(items[0], global);
      var rest := EncodeItems(items[1..], first.rc, first.global);
      Encoded(first.entries + rest.entries, rest.rc, rest.global)
  }

  /** A message that was sent, or the code publishing stopped with. */
  datatype Published = Sent(stream: seq<Entry>) | Failed(code: int) | Refused

  /** publishtosolace and publishToSolace: atoms are refused, and what the encoder does not report OK for
      is not sent. */
  function Outcome(x: K, sendResult: int): Published
    requires WellFormed(x)
  {
    if x.AtomK? then Refused else
      var e := Encode(x, SOLCLIENT_OK);
      if e.rc != SOLCLIENT_OK then Failed(e.rc)
      else if sendResult != SOLCLIENT_OK then Failed(sendResult)
      else Sent(e.entries)
  }
}
