/** The global `rc` as a channel between the parts of one message. A dictionary that fails leaves it at
    FAIL, every dictionary after it is then sent empty, and the result code of a list is that of its last
    item. Which items arrive and which values report OK is characterised on the value alone. */
module Silencing {
  import opened Wrappers
  import opened KObjects
  import opened Containers
  import opened Encoding
  import opened Decoding
  import opened RoundTrip

  predicate AllWellFormed(items: seq<K>) {
    forall k :: 0 <= k < |items| ==> WellFormed(items[k])
  }

  // ---------------------------------------------------------------------------------------------
  // What a value does to the global result.

  /** A dictionary whose last value is not a supported atom, or a list that holds one at any depth: it
      leaves the global result at FAIL. */
  predicate Poisons(x: K)
    requires WellFormed(x)
  {
    match x
    case DictK(keys, values) => SymbolKeys(keys) && Count(keys) > 0 && !Carried(ValueAt(values, Count(keys) - 1))
    case ListK(items) => AnyPoisons(items, |items|)
    case _ => false
  }

  /** One of the first `k` items poisons. */
  predicate AnyPoisons(items: seq<K>, k: nat)
    requires k <= |items| && AllWellFormed(items)
  {
    exists j :: 0 <= j < k && Poisons(items[j])
  }

  /** A dictionary with at least one key, at any depth of a list. */
  predicate HasDict(x: K) {
    match x
    case DictK(keys, _) => Count(keys) > 0
    case ListK(items) => exists k :: 0 <= k < |items| && HasDict(items[k])
    case _ => false
  }

  /** The two values the global result takes. */
  predicate IsCode(rc: int) {
    rc == SOLCLIENT_OK || rc == SOLCLIENT_FAIL
  }

  lemma {:induction false} LastValueDecides(names: seq<string>, values: K, k: nat, global: int)
    requires k <= |names| == Count(values) && !values.AtomK?
    ensures var e := EncodePairs(names, values, k, global);
            e.rc == e.global == if k == |names| then global else Code(ValueField(values, |names| - 1))
    decreases |names| - k
  {
    if k < |names| {
      LastValueDecides(names, values, k + 1, Code(ValueField(values, k)));
    }
  }

  lemma DictLeaves(keys: K, values: K, global: int)
    requires WellFormed(DictK(keys, values)) && IsCode(global)
    ensures var e := EncodeDict(keys, values, global);
            && e.global == (if global == SOLCLIENT_FAIL || Poisons(DictK(keys, values)) then SOLCLIENT_FAIL
                            else SOLCLIENT_OK)
            && e.rc == (if SymbolKeys(keys) then e.global else SOLCLIENT_FAIL)
  {
    if SymbolKeys(keys) {
      LastValueDecides(keys.v.ss, values, 0, global);
      if Count(keys) > 0 {
        FieldOfValue(values, Count(keys) - 1);
      }
    }
  }

  lemma {:induction false} ItemLeaves(x: K, global: int)
    requires WellFormed(x) && IsCode(global)
    ensures EncodeItem(x, global).global
         == if global == SOLCLIENT_FAIL || Poisons(x) then SOLCLIENT_FAIL else SOLCLIENT_OK
    decreases x, 1
  {
    match x
    case DictK(keys, values) => DictLeaves(keys, values, global);
    case ListK(items) => ItemsLeave(items, SOLCLIENT_FAIL, global);
    case _ =>
  }

  lemma {:induction false} ItemsLeave(items: seq<K>, rc: int, global: int)
    requires AllWellFormed(items) && IsCode(global)
    ensures EncodeItems(items, rc, global).global
         == if global == SOLCLIENT_FAIL || AnyPoisons(items, |items|) then SOLCLIENT_FAIL else SOLCLIENT_OK
    decreases items, 0
  {
    if items != [] {
      var first := EncodeItem(items[0], global);
      ItemLeaves(items[0], global);
      ItemsLeave(items[1..], first.rc, first.global);
      PoisonedFrontOrRest(items);
    }
  }

  lemma PoisonedFrontOrRest(items: seq<K>)
    requires AllWellFormed(items) && items != []
    ensures AnyPoisons(items, |items|) <==> Poisons(items[0]) || AnyPoisons(items[1..], |items| - 1)
  {
    assert forall j :: 1 <= j < |items| ==> items[j] == items[1..][j - 1];
  }

  lemma PoisonedPrefix(items: seq<K>, k: nat)
    requires AllWellFormed(items) && k <= |items|
    ensures AllWellFormed(items[..k])
    ensures AnyPoisons(items[..k], k) <==> AnyPoisons(items, k)
  {
    assert forall j :: 0 <= j < k ==> items[..k][j] == items[j];
  }

  // ---------------------------------------------------------------------------------------------
  // The loop over a list, cut at an item.

  lemma {:induction false} EncodeItemsConcat(a: seq<K>, b: seq<K>, rc: int, global: int)
    requires AllWellFormed(a) && AllWellFormed(b)
    ensures AllWellFormed(a + b)
    ensures var p := EncodeItems(a, rc, global);
            var q := EncodeItems(b, p.rc, p.global);
            EncodeItems(a + b, rc, global) == Encoded(p.entries + q.entries, q.rc, q.global)
    decreases a
  {
    if a == [] {
      assert a + b == b;
    } else {
      var first := EncodeItem(a[0], global);
      assert (a + b)[1..] == a[1..] + b;
      EncodeItemsConcat(a[1..], b, first.rc, first.global);
    }
  }

  lemma OneItem(x: K, rc: int, global: int)
    requires WellFormed(x)
    ensures EncodeItems([x], rc, global) == EncodeItem(x, global)
  {
    assert [x][1..] == [];
  }

  lemma CutAtItem(items: seq<K>, k: nat, rc: int, global: int) returns (after: Encoded)
    requires AllWellFormed(items) && k < |items|
    ensures AllWellFormed(items[..k])
    ensures var before := EncodeItems(items[..k], rc, global);
            var here := EncodeItem(items[k], before.global);
            var all := EncodeItems(items, rc, global);
            && all.entries == before.entries + (here.entries + after.entries)
            && (k == |items| - 1 ==> after.entries == [] && all.rc == here.rc)
  {
    var before := EncodeItems(items[..k], rc, global);
    var here := EncodeItem(items[k], before.global);
    assert items == items[..k] + ([items[k]] + items[k + 1..]);
    EncodeItemsConcat(items[..k], [items[k]] + items[k + 1..], rc, global);
    EncodeItemsConcat([items[k]], items[k + 1..], before.rc, before.global);
    OneItem(items[k], before.rc, before.global);
    after := EncodeItems(items[k + 1..], here.rc, here.global);
  }

  /** All items but unsupported atoms take one place in the stream. */
  predicate Sends(x: K) {
    x.AtomK? ==> AtomOk(x.atom)
  }

  /** Where the field of item `k` stands. */
  function Place(items: seq<K>, k: nat): nat
    requires k <= |items|
  {
    if k == 0 then 0 else Place(items, k - 1) + (if Sends(items[k - 1]) then 1 else 0)
  }

  lemma ItemTakesItsPlace(x: K, global: int)
    requires WellFormed(x)
    ensures |EncodeItem(x, global).entries| == if Sends(x) then 1 else 0
  {
  }

  lemma {:induction false} PrefixTakesPlaces(items: seq<K>, k: nat, rc: int, global: int)
    requires AllWellFormed(items) && k <= |items|
    ensures AllWellFormed(items[..k]) && |EncodeItems(items[..k], rc, global).entries| == Place(items, k)
  {
    if k > 0 {
      var before := EncodeItems(items[..k - 1], rc, global);
      PrefixTakesPlaces(items, k - 1, rc, global);
      assert items[..k] == items[..k - 1] + [items[k - 1]];
      EncodeItemsConcat(items[..k - 1], [items[k - 1]], rc, global);
      OneItem(items[k - 1], before.rc, before.global);
      ItemTakesItsPlace(items[k - 1], before.global);
    }
  }

  // ---------------------------------------------------------------------------------------------
  // What arrives once the global result is FAIL.

  lemma SilencedDict(round: Rounding, keys: K, values: K)
    requires DictOk(keys, values) && Count(keys) == Count(values)
    ensures Decode(round, MapField(EncodeDict(keys, values, SOLCLIENT_FAIL).entries), None)
            == NormItem(round, DictK(keys, values))
       <==> Count(keys) == 0
  {
    var names := keys.v.ss;
    assert Names([]) == [] && DecodeAll(round, []) == [];
    if |names| == 0 {
      assert names == [];
      assert NormValues(round, values) == ListK([]);
    }
  }

  lemma {:induction false} SilencedItem(round: Rounding, x: K)
    requires WellFormed(x) && ItemOk(x)
    ensures DecodeAll(round, EncodeItem(x, SOLCLIENT_FAIL).entries) == [NormItem(round, x)] <==> !HasDict(x)
    decreases x, 1
  {
    var e := EncodeItem(x, SOLCLIENT_FAIL);
    assert |e.entries| == 1;
    OneEntryDecodes(round, None, e.entries[0].field);
    match x
    case AtomK(a) => FieldDecodes(round, a);
    case VectorK(v) => ElementsRoundTrip(round, v, 0);
    case ListK(items) => SilencedItems(round, items, SOLCLIENT_FAIL);
    case DictK(keys, values) => SilencedDict(round, keys, values);
  }

  lemma {:induction false} SilencedItems(round: Rounding, items: seq<K>, rc: int)
    requires forall k :: 0 <= k < |items| ==> WellFormed(items[k]) && ItemOk(items[k])
    ensures DecodeAll(round, EncodeItems(items, rc, SOLCLIENT_FAIL).entries) == NormItems(round, items)
        <==> forall k :: 0 <= k < |items| ==> !HasDict(items[k])
    decreases items, 0
  {
    if items != [] {
      var first := EncodeItem(items[0], SOLCLIENT_FAIL);
      var rest := EncodeItems(items[1..], first.rc, SOLCLIENT_FAIL);
      ItemLeaves(items[0], SOLCLIENT_FAIL);
      SilencedItem(round, items[0]);
      SilencedItems(round, items[1..], first.rc);
      ItemTakesItsPlace(items[0], SOLCLIENT_FAIL);
      DecodeAllConcat(round, first.entries, rest.entries);
      SameHeadAndTail(DecodeAll(round, first.entries), DecodeAll(round, rest.entries),
                      NormItem(round, items[0]), NormItems(round, items[1..]));
      assert forall k :: 1 <= k < |items| ==> items[k] == items[1..][k - 1];
    }
  }

  lemma SameHeadAndTail<T>(a: seq<T>, b: seq<T>, x: T, xs: seq<T>)
    requires |a| == 1
    ensures a + b == [x] + xs <==> a == [x] && b == xs
  {
    if a + b == [x] + xs {
      assert a == (a + b)[..1] && b == (a + b)[1..];
    }
  }

  // ---------------------------------------------------------------------------------------------
  // The exact conditions.

  /** In the message built for a list, a supported item is found in full, in its place, if and only if it
      holds no dictionary or none of the items before it left the global result at FAIL. */
  lemma ItemIsBuiltIff(round: Rounding, items: seq<K>, k: nat)
    requires AllWellFormed(items) && k < |items| && ItemOk(items[k])
    ensures var r := Received(round, ListK(items));
            && r.ListK? && Place(items, k) < |r.items|
            && (r.items[Place(items, k)] == NormItem(round, items[k])
                <==> !HasDict(items[k]) || !AnyPoisons(items, k))
  {
    var after := CutAtItem(items, k, SOLCLIENT_FAIL, SOLCLIENT_OK);
    var before := EncodeItems(items[..k], SOLCLIENT_FAIL, SOLCLIENT_OK);
    var here := EncodeItem(items[k], before.global);
    PrefixTakesPlaces(items, k, SOLCLIENT_FAIL, SOLCLIENT_OK);
    PoisonedPrefix(items, k);
    ItemsLeave(items[..k], SOLCLIENT_FAIL, SOLCLIENT_OK);
    ItemTakesItsPlace(items[k], before.global);
    DecodeAllConcat(round, before.entries, here.entries + after.entries);
    DecodeAllConcat(round, here.entries, after.entries);
    if before.global == SOLCLIENT_OK {
      ItemRoundTrip(round, items[k]);
    } else {
      SilencedItem(round, items[k]);
    }
  }

  /** Which values report OK: a list does when its last item does. */
  predicate LooksOk(x: K)
    requires WellFormed(x)
  {
    match x
    case AtomK(a) => AtomOk(a)
    case VectorK(v) => VectorOk(v)
    case TableK(_) => false
    case DictK(keys, _) => SymbolKeys(keys) && !Poisons(x)
    case ListK(items) => items != [] && LastLooksOk(items)
  }

  /** A nested list always reports OK, and a dictionary only if nothing in the list up to it, itself
      included, left the global result at FAIL. */
  predicate LastLooksOk(items: seq<K>)
    requires AllWellFormed(items) && items != []
  {
    match items[|items| - 1]
    case ListK(_) => true
    case DictK(keys, _) => SymbolKeys(keys) && !AnyPoisons(items, |items|)
    case AtomK(a) => AtomOk(a)
    case VectorK(v) => VectorOk(v)
    case TableK(_) => false
  }

  lemma VectorReports(v: Vector)
    ensures EncodeElements(v, 0).1 == SOLCLIENT_OK <==> VectorOk(v)
  {
    if VectorOk(v) {
      ElementsRoundTrip(r => r, v, 0);
    }
  }

  /** What an item reports. */
  lemma ItemReports(x: K, global: int)
    requires WellFormed(x) && IsCode(global)
    ensures var ok := EncodeItem(x, global).rc == SOLCLIENT_OK;
            && (x.AtomK? ==> (ok <==> AtomOk(x.atom)))
            && (x.VectorK? ==> (ok <==> VectorOk(x.v)))
            && (x.ListK? ==> ok)
            && (x.TableK? ==> !ok)
            && (x.DictK? ==> (ok <==> SymbolKeys(x.keys) && global == SOLCLIENT_OK && !Poisons(x)))
  {
    match x
    case VectorK(v) => VectorReports(v);
    case DictK(keys, values) => DictLeaves(keys, values, global);
    case AtomK(_) =>
    case ListK(_) =>
    case TableK(_) =>
  }

  lemma LastPoisons(items: seq<K>)
    requires AllWellFormed(items) && items != []
    ensures AnyPoisons(items, |items|) <==> AnyPoisons(items, |items| - 1) || Poisons(items[|items| - 1])
  {
  }

  lemma LastReports(items: seq<K>)
    requires AllWellFormed(items) && items != []
    ensures EncodeItems(items, SOLCLIENT_FAIL, SOLCLIENT_OK).rc == SOLCLIENT_OK <==> LastLooksOk(items)
  {
    var k := |items| - 1;
    var _ := CutAtItem(items, k, SOLCLIENT_FAIL, SOLCLIENT_OK);
    PoisonedPrefix(items, k);
    LastPoisons(items);
    ItemsLeave(items[..k], SOLCLIENT_FAIL, SOLCLIENT_OK);
    ItemReports(items[k], EncodeItems(items[..k], SOLCLIENT_FAIL, SOLCLIENT_OK).global);
  }

  /** The exact condition for the result code, which says nothing about any item but the last and the
      dictionaries. */
  lemma ReportsOkIff(x: K)
    requires WellFormed(x)
    ensures ReportsOk(x) <==> LooksOk(x)
  {
    match x
    case VectorK(v) => VectorReports(v);
    case DictK(keys, values) => DictLeaves(keys, values, SOLCLIENT_OK);
    case ListK(items) =>
      assert Encode(x, SOLCLIENT_OK) == EncodeItems(items, SOLCLIENT_FAIL, SOLCLIENT_OK);
      if items != [] {
        LastReports(items);
      }
    case AtomK(_) =>
    case TableK(_) =>
  }

  /** What the subscriber gets for a list has item `k` in full, in its place. */
  predicate ItemArrives(round: Rounding, items: seq<K>, k: nat)
    requires AllWellFormed(items) && k < |items|
  {
    match Arrival(round, ListK(items))
    case None => false
    case Some(r) => r.ListK? && Place(items, k) < |r.items| && r.items[Place(items, k)] == NormItem(round, items[k])
  }

  /** A supported item of a list arrives in full if and only if the last item lets the list be sent at
      all, and the item itself holds no dictionary or none of the items before it left the global result
      at FAIL. */
  lemma ItemArrivesIff(round: Rounding, items: seq<K>, k: nat)
    requires AllWellFormed(items) && k < |items| && ItemOk(items[k])
    ensures ItemArrives(round, items, k)
       <==> LastLooksOk(items) && (!HasDict(items[k]) || !AnyPoisons(items, k))
  {
    ItemIsBuiltIff(round, items, k);
    ReportsOkIff(ListK(items));
    ArrivalIs(round, ListK(items));
  }

  // ---------------------------------------------------------------------------------------------
  // Messages that show it.

  /** An item that is built and never sent. */
  lemma LastItemWithholdsList(round: Rounding)
    ensures var items := [AtomK(Long(KJ, 7)), AtomK(Guid(1))];
            ItemOk(items[0]) && Arrival(round, ListK(items)) == None
  {
    var items := [AtomK(Long(KJ, 7)), AtomK(Guid(1))];
    ReportsOkIff(ListK(items));
    ArrivalIs(round, ListK(items));
  }

  const LOST_DICT: K := DictK(VectorK(Symbols(["a"])), VectorK(Guids([1])))
  const GOOD_DICT: K := DictK(VectorK(Symbols(["b"])), VectorK(Longs(KJ, [7])))

  /** After a dictionary that failed a good one is lost as well, and the message still reports OK. */
  lemma FailedDictSilencesNext(round: Rounding)
    ensures var x := ListK([LOST_DICT, GOOD_DICT, AtomK(Long(KJ, 9))]);
            && WellFormed(x) && ItemOk(GOOD_DICT)
            && Arrival(round, x).Some? && !ItemArrives(round, x.items, 1) && ItemArrives(round, x.items, 2)
  {
    var items := [LOST_DICT, GOOD_DICT, AtomK(Long(KJ, 9))];
    assert Poisons(items[0]);
    ReportsOkIff(ListK(items));
    ArrivalIs(round, ListK(items));
    ItemArrivesIff(round, items, 1);
    ItemArrivesIff(round, items, 2);
  }
}
