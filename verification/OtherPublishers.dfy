/** Messages of other publishers, with fields the encoder never writes: which numbers survive, and where a
    null pointer takes the place of a value. */
module OtherPublishers {
  import opened Wrappers
  import opened KObjects
  import opened Containers
  import opened Encoding
  import opened Binary32
  import opened Decoding
  import opened FieldTypes
  import opened RoundTrip

  // ---------------------------------------------------------------------------------------------
  // Integers.

  /** The number an atom holds, in any of the numeric types. */
  function NumberIn(x: K): Option<real> {
    if !x.AtomK? then None else
      match x.atom
      case Short(h) => Some(h as real)
      case Int(_, i) => Some(i as real)
      case Long(_, j) => Some(j as real)
      case Float(f) => Some(f)
      case _ => None
  }

  /** An integer field arrives with its value, except exactly an unsigned 32-bit one from 2^31 on, which
      is read as negative, and an unsigned 64-bit one that has more than 24 significant bits. */
  lemma IntegerArrivesIff(round: Rounding, f: Field)
    requires IntegerIn(f).Some?
    ensures var n := IntegerIn(f).value;
            NumberIn(Decode(round, f, None)) == Some(n as real)
            <==> (f.UInt32Field? ==> n < 0x8000_0000) && (f.UInt64Field? ==> Representable(n))
  {
    if f.UInt32Field? && f.u >= 0x8000_0000 {
      assert AsSigned32(f.u) as real < f.u as real;
    }
    if f.UInt64Field? {
      SurvivesIff(f.u);
    }
  }

  // ---------------------------------------------------------------------------------------------
  // Null pointers.

  /** Fields the decoder has no value for. */
  predicate Valueless(f: Field) {
    f.ByteArrayField? || f.NullField? || f.DestinationField? || f.SmfField?
  }

  /** The field at a place: `path` says which entry to take at each level of nesting. */
  function FieldAt(f: Field, path: seq<nat>): Option<Field>
    decreases |path|
  {
    if path == [] then Some(f) else
      match f
      case MapField(entries) => if path[0] < |entries| then FieldAt(entries[path[0]].field, path[1..]) else None
      case StreamField(entries) => if path[0] < |entries| then FieldAt(entries[path[0]].field, path[1..]) else None
      case _ => None
  }

  /** The same place in a received value, where a map has become a dictionary and a stream a list. */
  function ValueIn(x: K, path: seq<nat>): Option<K>
    decreases |path|
  {
    if path == [] then Some(x) else
      match x
      case ListK(items) => if path[0] < |items| then ValueIn(items[path[0]], path[1..]) else None
      case DictK(_, ListK(items)) => if path[0] < |items| then ValueIn(items[path[0]], path[1..]) else None
      case _ => None
  }

  /** Decoding keeps every place: what stands there is what its field decodes to, and there are no others. */
  lemma {:induction false} DecodeKeepsPlaces(round: Rounding, f: Field, attachment: Option<string>, path: seq<nat>)
    ensures match FieldAt(f, path)
            case None => ValueIn(Decode(round, f, attachment), path) == None
            case Some(g) =>
              ValueIn(Decode(round, f, attachment), path)
              == Some(Decode(round, g, if path == [] then attachment else None))
    decreases |path|
  {
    if path != [] {
      if (f.MapField? || f.StreamField?) && path[0] < |f.entries| {
        DecodeAllAt(round, f.entries, path[0]);
        DecodeKeepsPlaces(round, f.entries[path[0]].field, None, path[1..]);
      }
    }
  }

  lemma NullIff(round: Rounding, g: Field, attachment: Option<string>)
    ensures Decode(round, g, attachment) == Nil <==> Valueless(g) && (attachment.Some? ==> g.ByteArrayField?)
  {
  }

  /** In a received message a null pointer stands exactly where a field without a value stood; only the
      outermost field can take the raw attachment instead, and a byte array does not. */
  lemma NullsStandForValueless(round: Rounding, f: Field, attachment: Option<string>, path: seq<nat>)
    ensures ValueIn(Decode(round, f, attachment), path) == Some(Nil)
       <==> && FieldAt(f, path).Some? && Valueless(FieldAt(f, path).value)
            && (path == [] && attachment.Some? ==> f.ByteArrayField?)
  {
    DecodeKeepsPlaces(round, f, attachment, path);
    if FieldAt(f, path).Some? {
      NullIff(round, FieldAt(f, path).value, if path == [] then attachment else None);
    }
  }

  // ---------------------------------------------------------------------------------------------
  // The encoder never causes one.

  /** No field without a value, at any depth. */
  predicate AllValued(entries: seq<Entry>)
    decreases entries, 0
  {
    forall k :: 0 <= k < |entries| ==> EntryValued(entries[k])
  }

  predicate EntryValued(e: Entry)
    decreases e, 2
  {
    match e case Entry(_, field) => Valued(field)
  }

  predicate Valued(f: Field)
    decreases f, 1
  {
    match f
    case MapField(entries) => AllValued(entries)
    case StreamField(entries) => AllValued(entries)
    case _ => !Valueless(f)
  }

  lemma {:induction false} ValuedEverywhere(f: Field, path: seq<nat>)
    requires Valued(f) && FieldAt(f, path).Some?
    ensures !Valueless(FieldAt(f, path).value)
    decreases |path|
  {
    if path != [] {
      assert EntryValued(f.entries[path[0]]);
      ValuedEverywhere(f.entries[path[0]].field, path[1..]);
    }
  }

  lemma {:induction false} ElementsValued(v: Vector, k: nat)
    requires k <= v.Count()
    ensures AllValued(EncodeElements(v, k).0)
    decreases v.Count() - k
  {
    if k < v.Count() {
      ElementsValued(v, k + 1);
    }
  }

  lemma {:induction false} PairsValued(names: seq<string>, values: K, k: nat, global: int)
    requires k <= |names| == Count(values) && !values.AtomK?
    ensures AllValued(EncodePairs(names, values, k, global).entries)
    decreases |names| - k
  {
    if k < |names| {
      PairsValued(names, values, k + 1, Code(ValueField(values, k)));
    }
  }

  lemma VectorValued(x: K, global: int)
    requires WellFormed(x) && !x.AtomK? && !x.ListK?
    ensures AllValued(EncodeVector(x, global).entries)
  {
    match x
    case DictK(keys, values) =>
      if SymbolKeys(keys) {
        PairsValued(keys.v.ss, values, 0, global);
      }
    case TableK(_) =>
    case VectorK(v) => ElementsValued(v, 0);
  }

  lemma {:induction false} ItemValued(x: K, global: int)
    requires WellFormed(x)
    ensures AllValued(EncodeItem(x, global).entries)
    decreases x, 1
  {
    match x
    case AtomK(_) =>
    case ListK(items) => ItemsValued(items, SOLCLIENT_FAIL, global);
    case DictK(_, _) => VectorValued(x, global);
    case TableK(_) => VectorValued(x, global);
    case VectorK(_) => VectorValued(x, global);
  }

  lemma {:induction false} ItemsValued(items: seq<K>, rc: int, global: int)
    requires forall k :: 0 <= k < |items| ==> WellFormed(items[k])
    ensures AllValued(EncodeItems(items, rc, global).entries)
    decreases items, 0
  {
    if items != [] {
      var first := EncodeItem(items[0], global);
      ItemValued(items[0], global);
      ItemsValued(items[1..], first.rc, first.global);
    }
  }

  /** Whatever kdb+ publishes, supported or not: no null pointer is received at any place. */
  lemma NoNullsReceived(round: Rounding, x: K, path: seq<nat>)
    requires WellFormed(x)
    ensures ValueIn(Received(round, x), path) != Some(Nil)
  {
    match x {
      case AtomK(_) =>
      case ListK(items) => ItemsValued(items, SOLCLIENT_FAIL, SOLCLIENT_OK);
      case DictK(_, _) => VectorValued(x, SOLCLIENT_OK);
      case TableK(_) => VectorValued(x, SOLCLIENT_OK);
      case VectorK(_) => VectorValued(x, SOLCLIENT_OK);
    }
    var f := StreamField(Encode(x, SOLCLIENT_OK).entries);
    assert AllValued(f.entries);
    assert Valued(f);
    NullsStandForValueless(round, f, None, path);
    if FieldAt(f, path).Some? {
      ValuedEverywhere(f, path);
    }
  }
}
