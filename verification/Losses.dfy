/** What arrives for any value kdb+ can publish, supported or not, told without the encoder: unsupported
    atoms leave no trace in a list, unsupported vectors and tables leave an empty list, a dictionary keeps
    the keys whose values are supported atoms, and a silenced dictionary is empty. */
module Losses {
  import opened Wrappers
  import opened KObjects
  import opened Containers
  import opened Encoding
  import opened Decoding
  import opened RoundTrip
  import opened Silencing

  // ---------------------------------------------------------------------------------------------
  // The reference.

  /** The keys from the `k`-th on whose values are carried. */
  function KeptKeys(names: seq<string>, values: K, k: nat): seq<string>
    requires k <= |names| == Count(values)
    decreases |names| - k
  {
    if k == |names| then [] else
      (if Carried(ValueAt(values, k)) then [names[k]] else []) + KeptKeys(names, values, k + 1)
  }

  /** Their values, normalised. */
  function KeptValues(round: Rounding, values: K, k: nat): seq<K>
    requires k <= Count(values)
    decreases Count(values) - k
  {
    if k == Count(values) then [] else
      (if Carried(ValueAt(values, k)) then [NormAtom(round, ValueAt(values, k).atom)] else [])
      + KeptValues(round, values, k + 1)
  }

  function DictRemains(round: Rounding, keys: K, values: K, silenced: bool): K
    requires Count(keys) == Count(values)
  {
    if SymbolKeys(keys) && !silenced
    then DictK(VectorK(Symbols(KeptKeys(keys.v.ss, values, 0))), ListK(KeptValues(round, values, 0)))
    else DictK(VectorK(Symbols([])), ListK([]))
  }

  function VectorRemains(round: Rounding, v: Vector): seq<K> {
    if VectorOk(v) then NormElements(round, v, 0) else []
  }

  /** What an item of a list leaves in the message: nothing or one value. */
  function ItemRemains(round: Rounding, x: K, silenced: bool): seq<K>
    requires WellFormed(x)
    decreases x, 0
  {
    match x
    case AtomK(a) => if AtomOk(a) then [NormAtom(round, a)] else []
    case VectorK(v) => [ListK(VectorRemains(round, v))]
    case TableK(_) => [ListK([])]
    case DictK(keys, values) => [DictRemains(round, keys, values, silenced)]
    case ListK(items) => [ListK(ItemsRemain(round, items, |items|, silenced))]
  }

  /** What the first `k` items leave. An item is silenced if the list is, or an item before it poisons. */
  function ItemsRemain(round: Rounding, items: seq<K>, k: nat, silenced: bool): seq<K>
    requires k <= |items| && AllWellFormed(items)
    decreases items, k
  {
    if k == 0 then [] else
      ItemsRemain(round, items, k - 1, silenced)
      + ItemRemains(round, items[k - 1], silenced || AnyPoisons(items, k - 1))
  }

  /** What a whole message holds. */
  function Remains(round: Rounding, x: K): seq<K>
    requires WellFormed(x)
  {
    match x
    case VectorK(v) => VectorRemains(round, v)
    case TableK(_) => []
    case ListK(items) => ItemsRemain(round, items, |items|, false)
    case AtomK(_) => ItemRemains(round, x, false)
    case DictK(_, _) => ItemRemains(round, x, false)
  }

  // ---------------------------------------------------------------------------------------------
  // Dictionaries.

  /** The `k`-th key in front of what is kept of the others. */
  lemma KeyInFront(round: Rounding, names: seq<string>, values: K, k: nat, rest: seq<Entry>)
    requires k < |names| == Count(values) && !values.AtomK?
    requires Names(rest) == KeptKeys(names, values, k + 1) && DecodeAll(round, rest) == KeptValues(round, values, k + 1)
    ensures var entries := Entries(Some(names[k]), ValueField(values, k)) + rest;
            Names(entries) == KeptKeys(names, values, k) && DecodeAll(round, entries) == KeptValues(round, values, k)
  {
    FieldOfValue(values, k);
    if Carried(ValueAt(values, k)) {
      var f := ValueField(values, k).value;
      FieldDecodes(round, ValueAt(values, k).atom);
      OneEntryDecodes(round, Some(names[k]), f);
      NamesConcat([Entry(Some(names[k]), f)], rest);
      DecodeAllConcat(round, [Entry(Some(names[k]), f)], rest);
    } else {
      assert [] + rest == rest;
    }
  }

  predicate PairsKept(round: Rounding, names: seq<string>, values: K, k: nat, entries: seq<Entry>)
    requires k <= |names| == Count(values)
  {
    Names(entries) == KeptKeys(names, values, k) && DecodeAll(round, entries) == KeptValues(round, values, k)
  }

  lemma {:induction false} PairsLeave(round: Rounding, names: seq<string>, values: K, k: nat, global: int)
    requires k <= |names| == Count(values) && !values.AtomK?
    ensures PairsKept(round, names, values, k, EncodePairs(names, values, k, global).entries)
    decreases |names| - k
  {
    if k < |names| {
      var code := Code(ValueField(values, k));
      PairsLeave(round, names, values, k + 1, code);
      KeyInFront(round, names, values, k, EncodePairs(names, values, k + 1, code).entries);
    }
  }

  /** A dictionary with symbol keys that is not silenced arrives with exactly the keys whose values are
      supported atoms, in order, each with its value normalised; any other arrives empty. */
  lemma DictLeavesKept(round: Rounding, keys: K, values: K, global: int)
    requires WellFormed(DictK(keys, values)) && IsCode(global)
    ensures Decode(round, MapField(EncodeDict(keys, values, global).entries), None)
         == DictRemains(round, keys, values, global == SOLCLIENT_FAIL)
  {
    var entries := EncodeDict(keys, values, global).entries;
    MapDecodes(round, entries);
    if SymbolKeys(keys) && global != SOLCLIENT_FAIL {
      PairsLeave(round, keys.v.ss, values, 0, global);
    } else {
      assert Names(entries) == [] && DecodeAll(round, entries) == [];
    }
  }

  // ---------------------------------------------------------------------------------------------
  // Vectors and lists.

  lemma VectorLeaves(round: Rounding, v: Vector)
    ensures DecodeAll(round, EncodeElements(v, 0).0) == VectorRemains(round, v)
  {
    if VectorOk(v) {
      ElementsRoundTrip(round, v, 0);
    } else {
      assert EncodeElements(v, 0).0 == [];
    }
  }

  lemma {:induction false} ItemLeavesRemains(round: Rounding, x: K, global: int)
    requires WellFormed(x) && IsCode(global)
    ensures DecodeAll(round, EncodeItem(x, global).entries) == ItemRemains(round, x, global == SOLCLIENT_FAIL)
    decreases x, 0
  {
    match x
    case AtomK(a) => AtomLeaves(round, a);
    case VectorK(v) =>
      VectorLeaves(round, v);
      OneEntryDecodes(round, None, StreamField(EncodeElements(v, 0).0));
    case TableK(_) => OneEntryDecodes(round, None, StreamField([]));
    case DictK(keys, values) =>
      DictLeavesKept(round, keys, values, global);
      OneEntryDecodes(round, None, MapField(EncodeDict(keys, values, global).entries));
    case ListK(items) =>
      ItemsLeaveRemains(round, items, |items|, SOLCLIENT_FAIL, global);
      assert items[..|items|] == items;
      OneEntryDecodes(round, None, StreamField(EncodeItems(items, SOLCLIENT_FAIL, global).entries));
  }

  lemma AtomLeaves(round: Rounding, a: Atom)
    ensures DecodeAll(round, Entries(None, AtomField(a))) == if AtomOk(a) then [NormAtom(round, a)] else []
  {
    FieldDecodes(round, a);
    if AtomField(a).Some? {
      OneEntryDecodes(round, None, AtomField(a).value);
    }
  }

  lemma {:induction false} ItemsLeaveRemains(round: Rounding, items: seq<K>, k: nat, rc: int, global: int)
    requires k <= |items| && AllWellFormed(items) && IsCode(global)
    ensures AllWellFormed(items[..k])
    ensures DecodeAll(round, EncodeItems(items[..k], rc, global).entries)
         == ItemsRemain(round, items, k, global == SOLCLIENT_FAIL)
    decreases items, k
  {
    if k > 0 {
      ItemsLeaveRemains(round, items, k - 1, rc, global);
      var before := EncodeItems(items[..k - 1], rc, global);
      PoisonedPrefix(items, k - 1);
      ItemsLeave(items[..k - 1], rc, global);
      ItemLeavesRemains(round, items[k - 1], before.global);
      LastItemEncoded(items, k, rc, global);
      DecodeAllConcat(round, before.entries, EncodeItem(items[k - 1], before.global).entries);
    }
  }

  lemma LastItemEncoded(items: seq<K>, k: nat, rc: int, global: int)
    requires 0 < k <= |items| && AllWellFormed(items)
    ensures AllWellFormed(items[..k]) && AllWellFormed(items[..k - 1])
    ensures var before := EncodeItems(items[..k - 1], rc, global);
            EncodeItems(items[..k], rc, global).entries
            == before.entries + EncodeItem(items[k - 1], before.global).entries
  {
    var before := EncodeItems(items[..k - 1], rc, global);
    assert items[..k] == items[..k - 1] + [items[k - 1]];
    EncodeItemsConcat(items[..k - 1], [items[k - 1]], rc, global);
    OneItem(items[k - 1], before.rc, before.global);
  }

  // ---------------------------------------------------------------------------------------------
  // Whole messages.

  lemma MessageRemains(round: Rounding, x: K)
    requires WellFormed(x)
    ensures Received(round, x) == ListK(Remains(round, x))
  {
    match x
    case AtomK(a) => AtomLeaves(round, a);
    case VectorK(v) => VectorLeaves(round, v);
    case TableK(_) =>
    case DictK(keys, values) =>
      DictLeavesKept(round, keys, values, SOLCLIENT_OK);
      OneEntryDecodes(round, None, MapField(EncodeDict(keys, values, SOLCLIENT_OK).entries));
    case ListK(items) =>
      ItemsLeaveRemains(round, items, |items|, SOLCLIENT_FAIL, SOLCLIENT_OK);
      assert items[..|items|] == items;
  }

  /** For every value kdb+ can pass in: whether anything arrives, and exactly what. */
  lemma WhatArrives(round: Rounding, x: K)
    requires WellFormed(x)
    ensures Arrival(round, x) == if !x.AtomK? && LooksOk(x) then Some(ListK(Remains(round, x))) else None
  {
    MessageRemains(round, x);
    ReportsOkIff(x);
    ArrivalIs(round, x);
  }

  /** A dictionary that loses a key in the middle and is sent all the same. */
  lemma LossInTheMiddle(round: Rounding)
    ensures var x := DictK(VectorK(Symbols(["a", "b"])), ListK([AtomK(Byte(1)), AtomK(Long(KJ, 7))]));
            Arrival(round, x) == Some(ListK([DictK(VectorK(Symbols(["b"])), ListK([AtomK(Long(KJ, 7))]))]))
  {
    var values := ListK([AtomK(Byte(1)), AtomK(Long(KJ, 7))]);
    var x := DictK(VectorK(Symbols(["a", "b"])), values);
    assert KeptKeys(["a", "b"], values, 2) == [] && KeptValues(round, values, 2) == [];
    assert KeptKeys(["a", "b"], values, 1) == ["b"] && KeptValues(round, values, 1) == [AtomK(Long(KJ, 7))];
    assert KeptKeys(["a", "b"], values, 0) == ["b"] && KeptValues(round, values, 0) == [AtomK(Long(KJ, 7))];
    assert Remains(round, x) == [DictRemains(round, x.keys, values, false)];
    WhatArrives(round, x);
  }

  // ---------------------------------------------------------------------------------------------
  // What publishing answers.

  lemma {:induction false} EveryCodeIsOkOrFail(x: K, global: int)
    requires WellFormed(x) && IsCode(global)
    ensures IsCode(Encode(x, global).rc)
  {
    match x
    case AtomK(_) =>
    case TableK(_) =>
    case DictK(keys, values) => DictLeaves(keys, values, global);
    case VectorK(v) => ElementsCode(v, 0);
    case ListK(items) =>
      if items != [] {
        LastItemCode(items, global);
      }
  }

  lemma {:induction false} ElementsCode(v: Vector, k: nat)
    requires k <= v.Count()
    ensures IsCode(EncodeElements(v, k).1)
    decreases v.Count() - k
  {
    if k < v.Count() {
      ElementsCode(v, k + 1);
    }
  }

  lemma LastItemCode(items: seq<K>, global: int)
    requires AllWellFormed(items) && items != [] && IsCode(global)
    ensures IsCode(EncodeItems(items, SOLCLIENT_FAIL, global).rc)
  {
    var k := |items| - 1;
    var _ := CutAtItem(items, k, SOLCLIENT_FAIL, global);
    var before := EncodeItems(items[..k], SOLCLIENT_FAIL, global);
    ItemsLeave(items[..k], SOLCLIENT_FAIL, global);
    match items[k]
    case AtomK(_) =>
    case TableK(_) =>
    case ListK(_) =>
    case VectorK(v) => ElementsCode(v, 0);
    case DictK(keys, values) => DictLeaves(keys, values, before.global);
  }

  /** Publishing refuses atoms, answers FAIL for what does not report OK, passes on the code of the library
      when sending fails, and otherwise has sent the message. */
  lemma PublishAnswers(round: Rounding, x: K, sendResult: int)
    requires WellFormed(x)
    ensures Outcome(x, sendResult).Refused? <==> x.AtomK?
    ensures Outcome(x, sendResult).Sent? <==> !x.AtomK? && LooksOk(x) && sendResult == SOLCLIENT_OK
    ensures Outcome(x, sendResult).Sent? ==>
              Decode(round, StreamField(Outcome(x, sendResult).stream), None) == ListK(Remains(round, x))
    ensures Outcome(x, sendResult).Failed? ==>
              Outcome(x, sendResult).code == if LooksOk(x) then sendResult else SOLCLIENT_FAIL
  {
    EveryCodeIsOkOrFail(x, SOLCLIENT_OK);
    ReportsOkIff(x);
    MessageRemains(round, x);
  }
}
