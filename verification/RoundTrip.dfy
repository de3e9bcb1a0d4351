/** What a subscriber gets for what a publisher sends: the translation is lossy, and `Norm` says how. The
    values for which publishing reports success and everything arrives are characterised exactly. */
module RoundTrip {
  import opened Wrappers
  import opened KObjects
  import opened Containers
  import opened Encoding
  import opened Decoding

  // ---------------------------------------------------------------------------------------------
  // The normal form.

  /** Short and the date-like types become int, timestamp and timespan become long, a symbol becomes a
      char vector, and a float loses what a 32-bit float cannot hold. */
  function NormAtom(round: Rounding, a: Atom): K {
    match a
    case Short(h) => AtomK(Int(KI, h))
    case Int(_, i) => AtomK(Int(KI, i))
    case Long(_, j) => AtomK(Long(KJ, j))
    case Float(f) => AtomK(Float(round(f)))
    case Symbol(s) => VectorK(Chars(s))
    case _ => AtomK(a)
  }

  /** The elements of a vector from index `k` on, each normalised. */
  function NormElements(round: Rounding, v: Vector, k: nat): (items: seq<K>)
    requires k <= v.Count()
    ensures |items| == v.Count() - k
    decreases v.Count() - k
  {
    if k == v.Count() then [] else [NormAtom(round, v.At(k))] + NormElements(round, v, k + 1)
  }

  /** A typed vector becomes a general list, at any depth; a dictionary keeps its keys. */
  function NormItem(round: Rounding, x: K): K
    decreases x, 1
  {
    match x
    case AtomK(a) => NormAtom(round, a)
    case VectorK(v) => ListK(NormElements(round, v, 0))
    case ListK(items) => ListK(NormItems(round, items))
    case DictK(keys, values) => DictK(keys, NormValues(round, values))
    case _ => x
  }

  function NormItems(round: Rounding, items: seq<K>): (norms: seq<K>)
    ensures |norms| == |items|
    decreases items, 0
  {
    if items == [] then [] else [NormItem(round, items[0])] + NormItems(round, items[1..])
  }

  function NormValues(round: Rounding, values: K): K
    decreases values, 2
  {
    match values
    case VectorK(v) => ListK(NormElements(round, v, 0))
    case ListK(items) => ListK(NormItems(round, items))
    case _ => values
  }

  /** What arrives for a published value: the message is a stream, so a dictionary arrives inside a list. */
  function Norm(round: Rounding, x: K): K {
    if x.DictK? then ListK([NormItem(round, x)]) else NormItem(round, x)
  }

  // ---------------------------------------------------------------------------------------------
  // The supported values.

  predicate AtomOk(a: Atom) {
    !a.Byte? && !a.Guid?
  }

  predicate VectorOk(v: Vector) {
    v.Count() == 0 || (!v.Bytes? && !v.Guids?)
  }

  predicate AtomsOk(items: seq<K>) {
    forall k :: 0 <= k < |items| ==> items[k].AtomK? && AtomOk(items[k].atom)
  }

  /** A typed vector or a list of atoms. */
  predicate ValuesOk(values: K) {
    match values
    case VectorK(v) => VectorOk(v)
    case ListK(items) => AtomsOk(items)
    case _ => false
  }

  predicate DictOk(keys: K, values: K) {
    SymbolKeys(keys) && ValuesOk(values)
  }

  predicate ItemOk(x: K) {
    match x
    case AtomK(a) => AtomOk(a)
    case VectorK(v) => VectorOk(v)
    case ListK(items) => forall k :: 0 <= k < |items| ==> ItemOk(items[k])
    case DictK(keys, values) => DictOk(keys, values)
    case _ => false
  }

  /** What can be published in full: not an atom, and not the empty general list, which has nothing to
      take a result from; inside a list both are fine. */
  predicate Supported(x: K) {
    !x.AtomK? && ItemOk(x) && x != ListK([])
  }

  /** What decodeFromSolace makes of the message that encodeToSolaceContainer builds for `x`. */
  function Received(round: Rounding, x: K): K
    requires WellFormed(x)
  {
    Decode(round, StreamField(Encode(x, SOLCLIENT_OK).entries), None)
  }

  predicate ReportsOk(x: K)
    requires WellFormed(x)
  {
    Encode(x, SOLCLIENT_OK).rc == SOLCLIENT_OK
  }

  /** What the subscriber gets when the library accepts the message: nothing, if it is not sent. */
  function Arrival(round: Rounding, x: K): Option<K>
    requires WellFormed(x)
  {
    match Outcome(x, SOLCLIENT_OK)
    case Sent(stream) => Some(Decode(round, StreamField(stream), None))
    case _ => None
  }

  lemma ArrivalIs(round: Rounding, x: K)
    requires WellFormed(x)
    ensures Arrival(round, x) == if !x.AtomK? && ReportsOk(x) then Some(Received(round, x)) else None
  {
  }

  // ---------------------------------------------------------------------------------------------
  // Atoms, vectors and dictionaries.

  /** The switch over atom types and the switch over vector types agree on every type. */
  lemma SwitchesAgree(v: Vector, k: nat)
    requires k < v.Count()
    ensures ElementField(v, k) == AtomField(v.At(k))
  {
  }

  lemma FieldDecodes(round: Rounding, a: Atom)
    ensures AtomField(a).Some? <==> AtomOk(a)
    ensures AtomField(a).Some? ==> Decode(round, AtomField(a).value, None) == NormAtom(round, a)
  {
  }

  lemma OneEntryDecodes(round: Rounding, name: Option<string>, f: Field)
    ensures DecodeAll(round, [Entry(name, f)]) == [Decode(round, f, None)]
    ensures Names([Entry(name, f)]) == [NameOf(Entry(name, f))]
  {
    assert [Entry(name, f)][1..] == [];
  }

  lemma {:induction false} ElementsRoundTrip(round: Rounding, v: Vector, k: nat)
    requires k <= v.Count() && VectorOk(v)
    ensures EncodeElements(v, k).1 == SOLCLIENT_OK
    ensures DecodeAll(round, EncodeElements(v, k).0) == NormElements(round, v, k)
    decreases v.Count() - k
  {
    if k < v.Count() {
      SwitchesAgree(v, k);
      FieldDecodes(round, v.At(k));
      ElementsRoundTrip(round, v, k + 1);
      var f := ElementField(v, k);
      OneEntryDecodes(round, None, f.value);
      DecodeAllConcat(round, Entries(None, f), EncodeElements(v, k + 1).0);
    }
  }

  /** The atom a dictionary holds for its `k`-th key. */
  function ValueAt(values: K, k: nat): K
    requires k < Count(values)
  {
    match values
    case VectorK(v) => AtomK(v.At(k))
    case ListK(items) => items[k]
    case _ => Nil
  }

  /** A value that has a field of its own. */
  predicate Carried(x: K) {
    x.AtomK? && AtomOk(x.atom)
  }

  /** Whatever the values are kept in, there is a field exactly for the supported atoms, and it is theirs. */
  lemma FieldOfValue(values: K, k: nat)
    requires k < Count(values) && !values.AtomK?
    ensures ValueField(values, k).Some? <==> Carried(ValueAt(values, k))
    ensures Carried(ValueAt(values, k)) ==> ValueField(values, k) == AtomField(ValueAt(values, k).atom)
  {
    match values
    case VectorK(v) =>
      SwitchesAgree(v, k);
      FieldDecodes(r => r, v.At(k));
    case ListK(items) =>
      if items[k].AtomK? {
        FieldDecodes(r => r, items[k].atom);
      }
    case _ =>
  }

  function NormValuesFrom(round: Rounding, values: K, k: nat): seq<K>
    requires ValuesOk(values) && k <= Count(values)
  {
    match values
    case VectorK(v) => NormElements(round, v, k)
    case ListK(items) => NormItems(round, items[k..])
  }

  lemma ValueDecodes(round: Rounding, values: K, k: nat)
    requires ValuesOk(values) && k < Count(values)
    ensures ValueField(values, k).Some?
    ensures NormValuesFrom(round, values, k)
         == [Decode(round, ValueField(values, k).value, None)] + NormValuesFrom(round, values, k + 1)
  {
    match values
    case VectorK(v) =>
      SwitchesAgree(v, k);
      FieldDecodes(round, v.At(k));
    case ListK(items) =>
      FieldDecodes(round, items[k].atom);
      assert items[k] == AtomK(items[k].atom);
      assert items[k..][0] == items[k] && items[k..][1..] == items[k + 1..];
      assert NormItems(round, items[k..]) == [NormItem(round, items[k])] + NormItems(round, items[k + 1..]);
  }

  lemma NamesConcat(a: seq<Entry>, b: seq<Entry>)
    ensures Names(a + b) == Names(a) + Names(b)
  {
  }

  /** The entry for the `k`-th key in front of entries that decode to the values after it. */
  lemma PairInFront(round: Rounding, names: seq<string>, values: K, k: nat, rest: seq<Entry>)
    requires k < |names| == Count(values) && ValuesOk(values)
    requires Names(rest) == names[k + 1..] && DecodeAll(round, rest) == NormValuesFrom(round, values, k + 1)
    ensures ValueField(values, k).Some?
    ensures var entries := Entries(Some(names[k]), ValueField(values, k)) + rest;
            Names(entries) == names[k..] && DecodeAll(round, entries) == NormValuesFrom(round, values, k)
  {
    ValueDecodes(round, values, k);
    var f := ValueField(values, k).value;
    var entry := [Entry(Some(names[k]), f)];
    OneEntryDecodes(round, Some(names[k]), f);
    NamesConcat(entry, rest);
    DecodeAllConcat(round, entry, rest);
    assert names[k..] == [names[k]] + names[k + 1..];
  }

  lemma NextPair(names: seq<string>, values: K, k: nat)
    requires k < |names| == Count(values) && !values.AtomK? && ValueField(values, k).Some?
    ensures var rest := EncodePairs(names, values, k + 1, SOLCLIENT_OK);
            EncodePairs(names, values, k, SOLCLIENT_OK)
            == Encoded(Entries(Some(names[k]), ValueField(values, k)) + rest.entries, rest.rc, rest.global)
  {
  }

  lemma {:induction false} PairsReportOk(names: seq<string>, values: K, k: nat)
    requires k <= |names| == Count(values) && ValuesOk(values)
    ensures var e := EncodePairs(names, values, k, SOLCLIENT_OK); e.rc == e.global == SOLCLIENT_OK
    decreases |names| - k
  {
    if k < |names| {
      ValueDecodes(r => r, values, k);
      PairsReportOk(names, values, k + 1);
    }
  }

  /** The pairs from key `k` on arrive. */
  predicate PairsArrive(round: Rounding, names: seq<string>, values: K, k: nat)
    requires k <= |names| == Count(values) && ValuesOk(values)
  {
    var entries := EncodePairs(names, values, k, SOLCLIENT_OK).entries;
    Names(entries) == names[k..] && DecodeAll(round, entries) == NormValuesFrom(round, values, k)
  }

  lemma OneMorePairArrives(round: Rounding, names: seq<string>, values: K, k: nat)
    requires k < |names| == Count(values) && ValuesOk(values) && PairsArrive(round, names, values, k + 1)
    ensures PairsArrive(round, names, values, k)
  {
    PairInFront(round, names, values, k, EncodePairs(names, values, k + 1, SOLCLIENT_OK).entries);
    NextPair(names, values, k);
  }

  lemma NoPairIsLeft(round: Rounding, names: seq<string>, values: K)
    requires |names| == Count(values) && ValuesOk(values)
    ensures PairsArrive(round, names, values, |names|)
  {
    assert EncodePairs(names, values, |names|, SOLCLIENT_OK).entries == [];
    assert values.ListK? ==> values.items[|values.items|..] == [];
  }

  lemma {:induction false} PairsRoundTrip(round: Rounding, names: seq<string>, values: K, k: nat)
    requires k <= |names| == Count(values) && ValuesOk(values)
    ensures PairsArrive(round, names, values, k)
    decreases |names| - k
  {
    if k == |names| {
      NoPairIsLeft(round, names, values);
    } else {
      PairsRoundTrip(round, names, values, k + 1);
      OneMorePairArrives(round, names, values, k);
    }
  }

  lemma NormValuesFromStart(round: Rounding, values: K)
    requires ValuesOk(values)
    ensures NormValues(round, values) == ListK(NormValuesFrom(round, values, 0))
  {
    assert values.ListK? ==> values.items[0..] == values.items;
  }

  lemma MapDecodes(round: Rounding, entries: seq<Entry>)
    ensures Decode(round, MapField(entries), None)
         == DictK(VectorK(Symbols(Names(entries))), ListK(DecodeAll(round, entries)))
  {
  }

  lemma DictRoundTrip(round: Rounding, keys: K, values: K)
    requires DictOk(keys, values) && Count(keys) == Count(values)
    ensures var e := EncodeDict(keys, values, SOLCLIENT_OK);
            && e.rc == e.global == SOLCLIENT_OK
            && Decode(round, MapField(e.entries), None) == NormItem(round, DictK(keys, values))
  {
    var names := keys.v.ss;
    var e := EncodePairs(names, values, 0, SOLCLIENT_OK);
    PairsReportOk(names, values, 0);
    PairsRoundTrip(round, names, values, 0);
    assert EncodeDict(keys, values, SOLCLIENT_OK) == e;
    assert names[0..] == names;
    NormValuesFromStart(round, values);
    MapDecodes(round, e.entries);
  }

  // ---------------------------------------------------------------------------------------------
  // Lists.

  lemma {:induction false} ItemRoundTrip(round: Rounding, x: K)
    requires WellFormed(x) && ItemOk(x)
    ensures var e := EncodeItem(x, SOLCLIENT_OK);
            && e.rc == e.global == SOLCLIENT_OK
            && DecodeAll(round, e.entries) == [NormItem(round, x)]
    decreases x, 1
  {
    var e := EncodeItem(x, SOLCLIENT_OK);
    assert |e.entries| == 1;
    OneEntryDecodes(round, None, e.entries[0].field);
    match x
    case AtomK(a) => FieldDecodes(round, a);
    case VectorK(v) => ElementsRoundTrip(round, v, 0);
    case ListK(items) => ItemsRoundTrip(round, items, SOLCLIENT_FAIL);
    case DictK(keys, values) => DictRoundTrip(round, keys, values);
  }

  lemma {:induction false} ItemsRoundTrip(round: Rounding, items: seq<K>, rc: int)
    requires forall k :: 0 <= k < |items| ==> WellFormed(items[k]) && ItemOk(items[k])
    ensures var e := EncodeItems(items, rc, SOLCLIENT_OK);
            && e.rc == (if items == [] then rc else SOLCLIENT_OK) && e.global == SOLCLIENT_OK
            && DecodeAll(round, e.entries) == NormItems(round, items)
    decreases items, 0
  {
    if items != [] {
      ItemRoundTrip(round, items[0]);
      ItemsRoundTrip(round, items[1..], SOLCLIENT_OK);
      DecodeAllConcat(round, EncodeItem(items[0], SOLCLIENT_OK).entries,
                      EncodeItems(items[1..], SOLCLIENT_OK, SOLCLIENT_OK).entries);
    }
  }

  /** A dictionary is sent as the one field of a stream. */
  lemma TopLevelDict(round: Rounding, keys: K, values: K)
    requires WellFormed(DictK(keys, values)) && DictOk(keys, values)
    ensures var e := Encode(DictK(keys, values), SOLCLIENT_OK);
            && e.rc == e.global == SOLCLIENT_OK
            && DecodeAll(round, e.entries) == [NormItem(round, DictK(keys, values))]
  {
    DictRoundTrip(round, keys, values);
    OneEntryDecodes(round, None, MapField(EncodeDict(keys, values, SOLCLIENT_OK).entries));
  }

  lemma SupportedEncodes(round: Rounding, x: K)
    requires WellFormed(x) && Supported(x)
    ensures var e := Encode(x, SOLCLIENT_OK);
            e.rc == e.global == SOLCLIENT_OK && ListK(DecodeAll(round, e.entries)) == Norm(round, x)
  {
    match x
    case VectorK(v) => ElementsRoundTrip(round, v, 0);
    case ListK(items) => ItemsRoundTrip(round, items, SOLCLIENT_FAIL);
    case DictK(keys, values) => TopLevelDict(round, keys, values);
  }

  /** Publishing a supported value reports OK, leaves the global result at OK, and the subscriber
      receives its normal form. */
  lemma SupportedArrives(round: Rounding, x: K)
    requires WellFormed(x) && Supported(x)
    ensures ReportsOk(x) && Encode(x, SOLCLIENT_OK).global == SOLCLIENT_OK
    ensures Received(round, x) == Norm(round, x)
  {
    SupportedEncodes(round, x);
  }

  // ---------------------------------------------------------------------------------------------
  // The converse: nothing else arrives in full.

  lemma {:induction false} PairsAreFew(names: seq<string>, values: K, k: nat, global: int)
    requires k <= |names| == Count(values) && !values.AtomK?
    ensures var n := |EncodePairs(names, values, k, global).entries|;
            && n <= |names| - k
            && (n == |names| - k ==> forall i :: k <= i < |names| ==> ValueField(values, i).Some?)
    decreases |names| - k
  {
    if k < |names| {
      PairsAreFew(names, values, k + 1, Code(ValueField(values, k)));
    }
  }

  lemma AllFieldsMeanOk(values: K)
    requires values.VectorK? || values.ListK?
    requires forall i :: 0 <= i < Count(values) ==> ValueField(values, i).Some?
    ensures ValuesOk(values)
  {
    match values
    case VectorK(v) =>
      if v.Count() > 0 {
        assert ValueField(values, 0).Some?;
      }
    case ListK(items) =>
      forall k | 0 <= k < |items|
        ensures items[k].AtomK? && AtomOk(items[k].atom)
      {
        assert ValueField(values, k).Some?;
      }
  }

  lemma DictConverse(round: Rounding, keys: K, values: K, global: int)
    requires Count(keys) == Count(values) && !values.AtomK?
    requires Decode(round, MapField(EncodeDict(keys, values, global).entries), None)
          == NormItem(round, DictK(keys, values))
    ensures DictOk(keys, values)
  {
    var entries := EncodeDict(keys, values, global).entries;
    assert keys == VectorK(Symbols(Names(entries)));
    assert NormValues(round, values).ListK?;
    if global != SOLCLIENT_FAIL {
      PairsAreFew(keys.v.ss, values, 0, global);
    }
    AllFieldsMeanOk(values);
  }

  lemma ItemEncodesToAtMostOne(x: K, global: int)
    requires WellFormed(x)
    ensures |EncodeItem(x, global).entries| <= 1
  {
  }

  lemma {:induction false} ItemsAreFew(items: seq<K>, rc: int, global: int)
    requires forall k :: 0 <= k < |items| ==> WellFormed(items[k])
    ensures |EncodeItems(items, rc, global).entries| <= |items|
    decreases items
  {
    if items != [] {
      var first := EncodeItem(items[0], global);
      ItemEncodesToAtMostOne(items[0], global);
      ItemsAreFew(items[1..], first.rc, first.global);
    }
  }

  lemma {:induction false} ItemConverse(round: Rounding, x: K, global: int)
    requires WellFormed(x)
    requires DecodeAll(round, EncodeItem(x, global).entries) == [NormItem(round, x)]
    ensures ItemOk(x)
    decreases x, 1
  {
    var e := EncodeItem(x, global);
    OneEntryDecodes(round, None, e.entries[0].field);
    match x
    case AtomK(a) =>
    case TableK(_) =>
    case VectorK(v) => VectorConverse(round, v);
    case ListK(items) => ItemsConverse(round, items, SOLCLIENT_FAIL, global);
    case DictK(keys, values) => DictConverse(round, keys, values, global);
  }

  lemma VectorConverse(round: Rounding, v: Vector)
    requires DecodeAll(round, EncodeElements(v, 0).0) == NormElements(round, v, 0)
    ensures VectorOk(v)
  {
  }

  lemma {:induction false} ItemsConverse(round: Rounding, items: seq<K>, rc: int, global: int)
    requires forall k :: 0 <= k < |items| ==> WellFormed(items[k])
    requires DecodeAll(round, EncodeItems(items, rc, global).entries) == NormItems(round, items)
    ensures forall k :: 0 <= k < |items| ==> ItemOk(items[k])
    decreases items, 0
  {
    if items != [] {
      var first := EncodeItem(items[0], global);
      var rest := EncodeItems(items[1..], first.rc, first.global);
      ItemEncodesToAtMostOne(items[0], global);
      ItemsAreFew(items[1..], first.rc, first.global);
      DecodeAllConcat(round, first.entries, rest.entries);
      var a, b := DecodeAll(round, first.entries), DecodeAll(round, rest.entries);
      assert a + b == [NormItem(round, items[0])] + NormItems(round, items[1..]);
      assert a == (a + b)[..1] && b == (a + b)[1..];
      ItemConverse(round, items[0], global);
      ItemsConverse(round, items[1..], first.rc, first.global);
      forall k | 0 <= k < |items|
        ensures ItemOk(items[k])
      {
        if k > 0 { assert items[k] == items[1..][k - 1]; }
      }
    }
  }

  lemma ArrivesMeansSupported(round: Rounding, x: K)
    requires WellFormed(x) && !x.AtomK?
    requires ReportsOk(x) && Received(round, x) == Norm(round, x)
    ensures Supported(x)
  {
    var e := Encode(x, SOLCLIENT_OK);
    match x
    case VectorK(v) => VectorConverse(round, v);
    case ListK(items) => ItemsConverse(round, items, SOLCLIENT_FAIL, SOLCLIENT_OK);
    case DictK(keys, values) =>
      OneEntryDecodes(round, None, e.entries[0].field);
      DictConverse(round, keys, values, SOLCLIENT_OK);
    case TableK(_) =>
  }

  /** The exact condition: what arrives is the normal form of the whole value if and only if the value is
      supported. */
  lemma FaithfulIffSupported(round: Rounding, x: K)
    requires WellFormed(x)
    ensures Arrival(round, x) == Some(Norm(round, x)) <==> Supported(x)
  {
    ArrivalIs(round, x);
    if Supported(x) {
      SupportedArrives(round, x);
    } else if !x.AtomK? && ReportsOk(x) && Received(round, x) == Norm(round, x) {
      ArrivesMeansSupported(round, x);
    }
  }

  // ---------------------------------------------------------------------------------------------
  // OK on its own promises nothing.

  /** A guid followed by a long reports OK although only the long is sent. */
  lemma OkDoesNotMeanComplete(round: Rounding)
    ensures var x := ListK([AtomK(Guid(1)), AtomK(Long(KJ, 7))]);
            WellFormed(x) && !Supported(x) && Arrival(round, x) == Some(ListK([AtomK(Long(KJ, 7))]))
  {
    var items := [AtomK(Guid(1)), AtomK(Long(KJ, 7))];
    assert items[1..] == [AtomK(Long(KJ, 7))];
    assert items[1..][1..] == [];
    var e := Encode(ListK(items), SOLCLIENT_OK);
    assert e.entries == [Entry(None, Int64Field(7))];
    OneEntryDecodes(round, None, Int64Field(7));
    ArrivalIs(round, ListK(items));
    assert !ItemOk(items[0]);
  }
}
