/** A typed vector and the general list of its atoms are the same thing on the wire, wherever they occur. */
module Representation {
  import opened Wrappers
  import opened KObjects
  import opened Containers
  import opened Encoding
  import opened Decoding
  import opened RoundTrip
  import opened Silencing
  import opened Losses

  /** Every typed vector spelled out as a general list: at top level, nested, and as dictionary values. */
  function Expand(x: K): K
    decreases x, 1
  {
    match x
    case VectorK(v) => ListK(Elements(v, 0))
    case ListK(items) => ListK(ExpandAll(items))
    case DictK(keys, values) => DictK(keys, if values.VectorK? then ListK(Elements(values.v, 0)) else values)
    case _ => x
  }

  function ExpandAll(items: seq<K>): (r: seq<K>)
    ensures |r| == |items|
    decreases items, 0
  {
    if items == [] then [] else [Expand(items[0])] + ExpandAll(items[1..])
  }

  lemma {:induction false} ExpandKeepsWellFormed(x: K)
    requires WellFormed(x)
    ensures WellFormed(Expand(x)) && (x.DictK? <==> Expand(x).DictK?) && (x.AtomK? <==> Expand(x).AtomK?)
    decreases x, 1
  {
    match x
    case ListK(items) => ExpandAllKeepsWellFormed(items);
    case _ =>
  }

  lemma {:induction false} ExpandAllKeepsWellFormed(items: seq<K>)
    requires forall k :: 0 <= k < |items| ==> WellFormed(items[k])
    ensures forall k :: 0 <= k < |items| ==> WellFormed(ExpandAll(items)[k])
    decreases items, 0
  {
    if items != [] {
      ExpandKeepsWellFormed(items[0]);
      ExpandAllKeepsWellFormed(items[1..]);
    }
  }

  /** A vector of a supported type against the list of its atoms, from element `k` on. */
  lemma {:induction false} ElementsEncodeAlike(v: Vector, k: nat, rc: int, global: int)
    requires k <= v.Count()
    ensures var e := EncodeItems(Elements(v, k), rc, global);
            && e.entries == EncodeElements(v, k).0 && e.global == global
            && (k < v.Count() ==> e.rc == EncodeElements(v, k).1)
            && (k == v.Count() ==> e.rc == rc)
    decreases v.Count() - k
  {
    if k < v.Count() {
      SwitchesAgree(v, k);
      ElementsEncodeAlike(v, k + 1, Code(AtomField(v.At(k))), global);
      UnsupportedElementsAddNothing(v, k);
      assert Elements(v, k)[1..] == Elements(v, k + 1);
    }
  }

  /** A vector whose type is not supported fails on its first element, and the list of its atoms fails on
      every one of them. */
  lemma {:induction false} UnsupportedElementsAddNothing(v: Vector, k: nat)
    requires k < v.Count()
    ensures ElementField(v, k).None? ==> EncodeElements(v, k + 1).0 == []
    ensures ElementField(v, k).None? && k + 1 < v.Count() ==> EncodeElements(v, k + 1).1 == SOLCLIENT_FAIL
    ensures ElementField(v, k).Some? ==> EncodeElements(v, k + 1).1 == SOLCLIENT_OK
    decreases v.Count() - k
  {
    if k + 1 < v.Count() {
      UnsupportedElementsAddNothing(v, k + 1);
    }
  }

  lemma ElementAt(v: Vector, k: nat)
    requires k < v.Count()
    ensures Elements(v, 0)[k] == AtomK(v.At(k))
  {
  }

  lemma {:induction false} PairsEncodeAlike(names: seq<string>, v: Vector, k: nat, global: int)
    requires k <= |names| == v.Count()
    ensures EncodePairs(names, ListK(Elements(v, 0)), k, global) == EncodePairs(names, VectorK(v), k, global)
    decreases |names| - k
  {
    if k < |names| {
      ElementAt(v, k);
      SwitchesAgree(v, k);
      PairsEncodeAlike(names, v, k + 1, Code(ElementField(v, k)));
    }
  }

  lemma DictEncodesAlike(keys: K, values: K, global: int)
    requires WellFormed(DictK(keys, values))
    ensures WellFormed(Expand(DictK(keys, values)))
    ensures EncodeVector(Expand(DictK(keys, values)), global) == EncodeVector(DictK(keys, values), global)
  {
    ExpandKeepsWellFormed(DictK(keys, values));
    if values.VectorK? && SymbolKeys(keys) {
      PairsEncodeAlike(keys.v.ss, values.v, 0, global);
    }
  }

  predicate UnsupportedVector(x: K) {
    x.VectorK? && !VectorOk(x.v)
  }

  /** As an item, an unsupported vector fails, and the list of its elements is a list and reports OK. */
  lemma {:induction false} ItemEncodesAlike(x: K, global: int)
    requires WellFormed(x)
    ensures WellFormed(Expand(x))
    ensures var a, b := EncodeItem(Expand(x), global), EncodeItem(x, global);
            && a.entries == b.entries && a.global == b.global
            && (a.rc == b.rc <==> !UnsupportedVector(x))
            && (UnsupportedVector(x) ==> a.rc == SOLCLIENT_OK && b.rc == SOLCLIENT_FAIL)
    decreases x, 1
  {
    ExpandKeepsWellFormed(x);
    match x
    case VectorK(v) =>
      ElementsEncodeAlike(v, 0, SOLCLIENT_FAIL, global);
      VectorReports(v);
      ElementsCode(v, 0);
    case ListK(items) => ItemsEncodeAlike(items, SOLCLIENT_FAIL, SOLCLIENT_FAIL, global);
    case DictK(keys, values) => DictEncodesAlike(keys, values, global);
    case _ =>
  }

  lemma {:induction false} ItemsEncodeAlike(items: seq<K>, rcA: int, rcB: int, global: int)
    requires forall k :: 0 <= k < |items| ==> WellFormed(items[k])
    ensures forall k :: 0 <= k < |items| ==> WellFormed(ExpandAll(items)[k])
    ensures var a, b := EncodeItems(ExpandAll(items), rcA, global), EncodeItems(items, rcB, global);
            a.entries == b.entries && a.global == b.global
    decreases items, 0
  {
    ExpandAllKeepsWellFormed(items);
    if items != [] {
      ItemEncodesAlike(items[0], global);
      var a, b := EncodeItem(Expand(items[0]), global), EncodeItem(items[0], global);
      ItemsEncodeAlike(items[1..], a.rc, b.rc, a.global);
      assert ExpandAll(items)[1..] == ExpandAll(items[1..]);
    }
  }

  lemma {:induction false} ExpandAllAt(items: seq<K>, k: nat)
    requires k < |items|
    ensures ExpandAll(items)[..k] == ExpandAll(items[..k]) && ExpandAll(items)[k] == Expand(items[k])
  {
    if k > 0 {
      ExpandAllAt(items[1..], k - 1);
      assert items[..k][1..] == items[1..][..k - 1];
    }
  }

  /** The values whose result code depends on the spelling. */
  predicate CodeShifts(x: K) {
    match x
    case VectorK(v) => v.Count() == 0
    case ListK(items) => items != [] && UnsupportedVector(items[|items| - 1])
    case _ => false
  }

  lemma LastItemShifts(items: seq<K>, global: int)
    requires AllWellFormed(items) && items != []
    ensures AllWellFormed(ExpandAll(items))
    ensures var a := EncodeItems(ExpandAll(items), SOLCLIENT_FAIL, global);
            var b := EncodeItems(items, SOLCLIENT_FAIL, global);
            && (a.rc == b.rc <==> !CodeShifts(ListK(items)))
            && (CodeShifts(ListK(items)) ==> a.rc == SOLCLIENT_OK && b.rc == SOLCLIENT_FAIL)
  {
    var k := |items| - 1;
    ExpandAllKeepsWellFormed(items);
    ExpandAllAt(items, k);
    var _ := CutAtItem(items, k, SOLCLIENT_FAIL, global);
    var _ := CutAtItem(ExpandAll(items), k, SOLCLIENT_FAIL, global);
    ItemsEncodeAlike(items[..k], SOLCLIENT_FAIL, SOLCLIENT_FAIL, global);
    ItemEncodesAlike(items[k], EncodeItems(items[..k], SOLCLIENT_FAIL, global).global);
  }

  /** Spelling vectors out as lists changes nothing in the message that is built, for any value, and it
      changes the result code of exactly the values named by CodeShifts: an empty vector at top level
      reports OK and its list FAIL, and a list that ends in an unsupported vector the other way round. */
  lemma RepresentationIsInvisible(x: K, global: int)
    requires WellFormed(x)
    ensures WellFormed(Expand(x))
    ensures var a, b := Encode(Expand(x), global), Encode(x, global);
            && a.entries == b.entries && a.global == b.global
            && (a.rc == b.rc <==> !CodeShifts(x))
            && (CodeShifts(x) ==> (a.rc == SOLCLIENT_OK <==> b.rc != SOLCLIENT_OK))
  {
    ExpandKeepsWellFormed(x);
    match x
    case VectorK(v) => ElementsEncodeAlike(v, 0, SOLCLIENT_FAIL, global);
    case ListK(items) =>
      ItemsEncodeAlike(items, SOLCLIENT_FAIL, SOLCLIENT_FAIL, global);
      if items != [] {
        LastItemShifts(items, global);
      }
    case DictK(keys, values) => DictEncodesAlike(keys, values, global);
    case AtomK(_) =>
    case TableK(_) =>
  }

  /** What the subscriber gets, or that nothing is sent, is the same for both spellings if and only if the
      result code does not depend on the spelling. */
  lemma SpellingArrivesIff(round: Rounding, x: K)
    requires WellFormed(x)
    ensures WellFormed(Expand(x))
    ensures (ReportsOk(Expand(x)) <==> ReportsOk(x)) <==> !CodeShifts(x)
    ensures Arrival(round, Expand(x)) == Arrival(round, x) <==> !CodeShifts(x)
  {
    RepresentationIsInvisible(x, SOLCLIENT_OK);
    ExpandKeepsWellFormed(x);
    ArrivalIs(round, x);
    ArrivalIs(round, Expand(x));
  }

  /** Two values that differ only in such spellings build the same message, and the subscriber gets the
      same if and only if both or neither are among the exceptions. */
  lemma SameExpansionArrivesIff(round: Rounding, x: K, y: K)
    requires WellFormed(x) && WellFormed(y) && Expand(x) == Expand(y)
    ensures Received(round, x) == Received(round, y)
    ensures Arrival(round, x) == Arrival(round, y) <==> (CodeShifts(x) <==> CodeShifts(y))
  {
    RepresentationIsInvisible(x, SOLCLIENT_OK);
    RepresentationIsInvisible(y, SOLCLIENT_OK);
    ExpandKeepsWellFormed(x);
    ExpandKeepsWellFormed(y);
    SpellingArrivesIff(round, x);
    SpellingArrivesIff(round, y);
    ArrivalIs(round, x);
    ArrivalIs(round, y);
  }

  /** One exception: an empty vector at top level is sent, the empty list is not. */
  lemma EmptyVectorAndEmptyList(round: Rounding, v: Vector)
    requires v.Count() == 0
    ensures Expand(VectorK(v)) == ListK([])
    ensures Arrival(round, VectorK(v)) == Some(ListK([])) && Arrival(round, ListK([])) == None
  {
    ArrivalIs(round, VectorK(v));
    ArrivalIs(round, ListK([]));
  }

  /** The other: a list that ends in a guid vector is not sent, and spelled out it is, without the guids. */
  lemma GuidVectorAndGuidList(round: Rounding, u: nat)
    ensures var x := ListK([VectorK(Guids([u]))]);
            && Expand(x) == ListK([ListK([AtomK(Guid(u))])])
            && Arrival(round, x) == None && Arrival(round, Expand(x)) == Some(ListK([ListK([])]))
  {
    var v := Guids([u]);
    var x := ListK([VectorK(v)]);
    assert Elements(v, 0) == [AtomK(Guid(u))];
    assert [VectorK(v)][1..] == [];
    assert ExpandAll([VectorK(v)]) == [Expand(VectorK(v))];
    assert Expand(x) == ListK([ListK([AtomK(Guid(u))])]);
    ReportsOkIff(x);
    SpellingArrivesIff(round, x);
    ArrivalIs(round, x);
    ArrivalIs(round, Expand(x));
    RepresentationIsInvisible(x, SOLCLIENT_OK);
    GuidVectorIsSentEmpty(round, u);
  }

  lemma GuidVectorIsSentEmpty(round: Rounding, u: nat)
    ensures Received(round, ListK([VectorK(Guids([u]))])) == ListK([ListK([])])
  {
    OneItem(VectorK(Guids([u])), SOLCLIENT_FAIL, SOLCLIENT_OK);
    assert EncodeItem(VectorK(Guids([u])), SOLCLIENT_OK).entries == [Entry(None, StreamField([]))];
    OneEntryDecodes(round, None, StreamField([]));
  }
}
