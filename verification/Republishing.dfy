/** Publishing again what was received: the normal form settles after one trip without symbols and after
    two with them, and the only obstacle is a symbol among the values of a dictionary. */
module Republishing {
  import opened KObjects
  import opened Decoding
  import opened RoundTrip

  ghost predicate Idempotent(round: Rounding) {
    forall r: real :: round(round(r)) == round(r)
  }

  predicate SymbolFreeAtom(a: Atom) {
    !a.Symbol?
  }

  predicate SymbolFreeVector(v: Vector) {
    v.Symbols? ==> v.Count() == 0
  }

  predicate SymbolFreeValues(values: K) {
    match values
    case VectorK(v) => SymbolFreeVector(v)
    case ListK(items) => forall k :: 0 <= k < |items| && items[k].AtomK? ==> SymbolFreeAtom(items[k].atom)
    case _ => true
  }

  /** No symbol anywhere but among the keys of dictionaries. */
  predicate SymbolFree(x: K) {
    match x
    case AtomK(a) => SymbolFreeAtom(a)
    case VectorK(v) => SymbolFreeVector(v)
    case ListK(items) => forall k :: 0 <= k < |items| ==> SymbolFree(items[k])
    case DictK(_, values) => SymbolFreeValues(values)
    case _ => true
  }

  /** No symbol among the values of a dictionary. */
  predicate SymbolFreeDicts(x: K) {
    match x
    case ListK(items) => forall k :: 0 <= k < |items| ==> SymbolFreeDicts(items[k])
    case DictK(_, values) => SymbolFreeValues(values)
    case _ => true
  }

  // ---------------------------------------------------------------------------------------------
  // Normalising element by element.

  lemma {:induction false} NormElementsAt(round: Rounding, v: Vector, k: nat, n: nat)
    requires k + n < v.Count()
    ensures NormElements(round, v, k)[n] == NormAtom(round, v.At(k + n))
    decreases n
  {
    if n > 0 {
      NormElementsAt(round, v, k + 1, n - 1);
    }
  }

  lemma {:induction false} NormItemsAt(round: Rounding, items: seq<K>, n: nat)
    requires n < |items|
    ensures NormItems(round, items)[n] == NormItem(round, items[n])
    decreases n
  {
    if n > 0 {
      NormItemsAt(round, items[1..], n - 1);
    }
  }

  /** Two lists are normalised alike when their items are. */
  lemma NormItemsAlike(round: Rounding, a: seq<K>, b: seq<K>)
    requires |a| == |b| && forall n :: 0 <= n < |a| ==> NormItem(round, a[n]) == b[n]
    ensures NormItems(round, a) == b
  {
    forall n | 0 <= n < |a|
      ensures NormItems(round, a)[n] == b[n]
    {
      NormItemsAt(round, a, n);
    }
  }

  // ---------------------------------------------------------------------------------------------
  // Symbol-free values settle at once.

  lemma NormAtomSettles(round: Rounding, a: Atom)
    requires Idempotent(round)
    ensures SymbolFreeAtom(a) ==> NormItem(round, NormAtom(round, a)) == NormAtom(round, a)
    ensures NormItem(round, NormItem(round, NormAtom(round, a))) == NormItem(round, NormAtom(round, a))
  {
    if a.Symbol? {
      NormCharsSettle(round, Chars(a.s));
    }
  }

  /** The characters of a char vector are atoms the second trip leaves alone. */
  lemma NormCharsSettle(round: Rounding, v: Vector)
    requires Idempotent(round) && SymbolFreeVector(v)
    ensures NormItem(round, NormItem(round, VectorK(v))) == NormItem(round, VectorK(v))
  {
    var items := NormElements(round, v, 0);
    forall n | 0 <= n < |items|
      ensures NormItem(round, items[n]) == items[n]
    {
      NormElementsAt(round, v, 0, n);
      NormSymbolFreeAtomSettles(round, v.At(n));
    }
    NormItemsAlike(round, items, items);
  }

  lemma NormSymbolFreeAtomSettles(round: Rounding, a: Atom)
    requires Idempotent(round) && SymbolFreeAtom(a)
    ensures NormItem(round, NormAtom(round, a)) == NormAtom(round, a)
  {
  }

  /** Normalised dictionary values without symbols are normal. */
  lemma NormValuesSettle(round: Rounding, values: K)
    requires Idempotent(round) && ValuesOk(values) && SymbolFreeValues(values)
    ensures NormValues(round, NormValues(round, values)) == NormValues(round, values)
  {
    match values
    case VectorK(v) => NormCharsSettle(round, v);
    case ListK(items) =>
      var norms := NormItems(round, items);
      forall n | 0 <= n < |norms|
        ensures NormItem(round, norms[n]) == norms[n]
      {
        NormItemsAt(round, items, n);
        NormSymbolFreeAtomSettles(round, items[n].atom);
      }
      NormItemsAlike(round, norms, norms);
  }

  lemma {:induction false} NormItemSettles(round: Rounding, x: K)
    requires Idempotent(round) && ItemOk(x) && SymbolFree(x)
    ensures NormItem(round, NormItem(round, x)) == NormItem(round, x)
    decreases x
  {
    match x
    case AtomK(a) => NormSymbolFreeAtomSettles(round, a);
    case VectorK(v) => NormCharsSettle(round, v);
    case DictK(keys, values) => NormValuesSettle(round, values);
    case ListK(items) =>
      var norms := NormItems(round, items);
      forall n | 0 <= n < |norms|
        ensures NormItem(round, norms[n]) == norms[n]
      {
        NormItemsAt(round, items, n);
        NormItemSettles(round, items[n]);
      }
      NormItemsAlike(round, norms, norms);
  }

  // ---------------------------------------------------------------------------------------------
  // With symbols, one trip later.

  lemma {:induction false} NormItemSettlesLater(round: Rounding, x: K)
    requires Idempotent(round) && ItemOk(x) && SymbolFreeDicts(x)
    ensures var y := NormItem(round, NormItem(round, x)); NormItem(round, y) == y
    decreases x
  {
    match x
    case AtomK(a) => NormAtomSettles(round, a);
    case VectorK(v) => NormVectorSettlesLater(round, v);
    case DictK(keys, values) => NormValuesSettle(round, values);
    case ListK(items) =>
      var once := NormItems(round, items);
      var twice := NormItems(round, once);
      forall n | 0 <= n < |twice|
        ensures NormItem(round, twice[n]) == twice[n]
      {
        NormItemsAt(round, items, n);
        NormItemsAt(round, once, n);
        NormItemSettlesLater(round, items[n]);
      }
      NormItemsAlike(round, twice, twice);
  }

  lemma NormVectorSettlesLater(round: Rounding, v: Vector)
    requires Idempotent(round)
    ensures var y := NormItem(round, NormItem(round, VectorK(v))); NormItem(round, y) == y
  {
    var once := NormElements(round, v, 0);
    var twice := NormItems(round, once);
    forall n | 0 <= n < |twice|
      ensures NormItem(round, twice[n]) == twice[n]
    {
      NormElementsAt(round, v, 0, n);
      NormItemsAt(round, once, n);
      NormAtomSettles(round, v.At(n));
    }
    NormItemsAlike(round, twice, twice);
  }

  // ---------------------------------------------------------------------------------------------
  // When what was received can be published again.

  lemma NormAtomStaysOk(round: Rounding, a: Atom)
    requires AtomOk(a)
    ensures ItemOk(NormAtom(round, a)) && WellFormed(NormAtom(round, a)) && SymbolFree(NormAtom(round, a))
  {
  }

  /** Normalised values are atoms exactly when no symbol was among them. */
  lemma NormValuesOkIff(round: Rounding, values: K)
    requires ValuesOk(values)
    ensures WellFormed(NormValues(round, values))
    ensures ValuesOk(NormValues(round, values)) <==> SymbolFreeValues(values)
    ensures Count(NormValues(round, values)) == Count(values)
  {
    var norms := NormValues(round, values).items;
    forall n | 0 <= n < |norms|
      ensures norms[n].AtomK? <==> SymbolFreeAtom(ValueAt(values, n).atom)
      ensures norms[n].AtomK? ==> AtomOk(norms[n].atom)
      ensures WellFormed(norms[n])
    {
      NormValueAt(round, values, n);
      NormAtomStaysOk(round, ValueAt(values, n).atom);
    }
    assert AtomsOk(norms) <==> forall n :: 0 <= n < |norms| ==> norms[n].AtomK?;
    SymbolFreeValuesIff(values);
  }

  lemma SymbolFreeValuesIff(values: K)
    requires ValuesOk(values)
    ensures SymbolFreeValues(values)
        <==> forall n :: 0 <= n < Count(values) ==> ValueAt(values, n).AtomK? && SymbolFreeAtom(ValueAt(values, n).atom)
  {
    if values.VectorK? && values.v.Symbols? && values.v.Count() > 0 {
      assert !SymbolFreeAtom(ValueAt(values, 0).atom);
    }
    if values.ListK? {
      assert forall n :: 0 <= n < Count(values) ==> ValueAt(values, n) == values.items[n];
    }
  }

  lemma NormValueAt(round: Rounding, values: K, n: nat)
    requires ValuesOk(values) && n < Count(values)
    ensures ValueAt(values, n).AtomK? && AtomOk(ValueAt(values, n).atom)
    ensures NormValues(round, values).ListK? && |NormValues(round, values).items| == Count(values)
    ensures NormValues(round, values).items[n] == NormAtom(round, ValueAt(values, n).atom)
  {
    match values
    case VectorK(v) => NormElementsAt(round, v, 0, n);
    case ListK(items) =>
      NormItemsAt(round, items, n);
      assert items[n] == AtomK(items[n].atom);
  }

  lemma {:induction false} NormItemOkIff(round: Rounding, x: K)
    requires WellFormed(x) && ItemOk(x)
    ensures WellFormed(NormItem(round, x))
    ensures ItemOk(NormItem(round, x)) <==> SymbolFreeDicts(x)
    decreases x
  {
    match x
    case AtomK(a) => NormAtomStaysOk(round, a);
    case VectorK(v) => NormVectorStaysOk(round, v);
    case DictK(keys, values) => NormValuesOkIff(round, values);
    case ListK(items) =>
      var norms := NormItems(round, items);
      forall n | 0 <= n < |items|
        ensures WellFormed(norms[n]) && (ItemOk(norms[n]) <==> SymbolFreeDicts(items[n]))
      {
        NormItemsAt(round, items, n);
        NormItemOkIff(round, items[n]);
      }
  }

  lemma NormVectorStaysOk(round: Rounding, v: Vector)
    requires VectorOk(v)
    ensures ItemOk(NormItem(round, VectorK(v))) && WellFormed(NormItem(round, VectorK(v)))
  {
    var items := NormElements(round, v, 0);
    forall n | 0 <= n < |items|
      ensures ItemOk(items[n]) && WellFormed(items[n])
    {
      NormElementsAt(round, v, 0, n);
      NormAtomStaysOk(round, v.At(n));
    }
  }

  /** What was received for a supported value can be published again in full exactly when no dictionary
      has a symbol among its values and the value was not an empty vector. */
  lemma RepublishableIff(round: Rounding, x: K)
    requires WellFormed(x) && Supported(x)
    ensures WellFormed(Received(round, x))
    ensures Supported(Received(round, x)) <==> SymbolFreeDicts(x) && (x.VectorK? ==> x.v.Count() > 0)
  {
    SupportedArrives(round, x);
    NormItemOkIff(round, x);
    if x.DictK? {
      assert [NormItem(round, x)][0] == NormItem(round, x);
    }
  }

  // ---------------------------------------------------------------------------------------------
  // The trips.

  lemma NormSettles(round: Rounding, x: K)
    requires Idempotent(round) && Supported(x) && SymbolFree(x)
    ensures Norm(round, Norm(round, x)) == Norm(round, x)
  {
    NormItemSettles(round, x);
    if x.DictK? {
      NormItemsAlike(round, [NormItem(round, x)], [NormItem(round, x)]);
    }
  }

  lemma NormSettlesLater(round: Rounding, x: K)
    requires Idempotent(round) && Supported(x) && SymbolFreeDicts(x)
    ensures var y := Norm(round, Norm(round, x)); Norm(round, y) == y
  {
    NormItemSettlesLater(round, x);
    if x.DictK? {
      var once := NormItem(round, x);
      var twice := NormItem(round, once);
      NormItemsAlike(round, [once], [twice]);
      NormItemsAlike(round, [twice], [twice]);
    }
  }

  predicate Republishable(x: K) {
    Supported(x) && SymbolFreeDicts(x) && (x.VectorK? ==> x.v.Count() > 0)
  }

  /** A symbol is not what it arrives as, and neither is a vector of them. */
  lemma {:induction false} SymbolsDoNotSettle(round: Rounding, x: K)
    requires ItemOk(x) && SymbolFreeDicts(x) && !SymbolFree(x)
    ensures NormItem(round, NormItem(round, x)) != NormItem(round, x)
    decreases x
  {
    match x
    case AtomK(_) =>
    case VectorK(v) =>
      NormElementsAt(round, v, 0, 0);
      NormItemsAt(round, NormElements(round, v, 0), 0);
    case ListK(items) =>
      var n :| 0 <= n < |items| && !SymbolFree(items[n]);
      SymbolsDoNotSettle(round, items[n]);
      NormItemsAt(round, items, n);
      NormItemsAt(round, NormItems(round, items), n);
  }

  /** What is received can be published again, and it is received unchanged if and only if there was no
      symbol in the value. */
  lemma SecondTripIsIdentityIff(round: Rounding, x: K)
    requires Idempotent(round) && WellFormed(x) && Republishable(x)
    ensures WellFormed(Received(round, x))
    ensures ReportsOk(Received(round, x))
    ensures Received(round, Received(round, x)) == Received(round, x) <==> SymbolFree(x)
  {
    RepublishableIff(round, x);
    SupportedArrives(round, x);
    SupportedArrives(round, Received(round, x));
    if SymbolFree(x) {
      NormSettles(round, x);
    } else {
      SymbolsDoNotSettle(round, x);
    }
  }

  /** With symbols outside dictionaries the third trip changes nothing: a symbol arrives as a char vector,
      that as a list of chars, and that as itself. */
  lemma ThirdTripIsIdentity(round: Rounding, x: K)
    requires Idempotent(round) && WellFormed(x) && Republishable(x)
    ensures WellFormed(Received(round, x)) && WellFormed(Received(round, Received(round, x)))
    ensures var y := Received(round, Received(round, x)); ReportsOk(y) && Received(round, y) == y
  {
    RepublishableIff(round, x);
    var x1 := Received(round, x);
    SupportedArrives(round, x);
    ReceivedIsRepublishable(round, x);
    RepublishableIff(round, x1);
    SupportedArrives(round, x1);
    SupportedArrives(round, Received(round, x1));
    NormSettlesLater(round, x);
  }

  /** What arrives for a republishable value is republishable, again and again. */
  lemma ReceivedIsRepublishable(round: Rounding, x: K)
    requires WellFormed(x) && Republishable(x)
    ensures WellFormed(Received(round, x)) && Republishable(Received(round, x))
  {
    RepublishableIff(round, x);
    SupportedArrives(round, x);
    NormKeepsDictsSymbolFree(round, x);
    if x.DictK? {
      assert [NormItem(round, x)][0] == NormItem(round, x);
    }
  }

  lemma {:induction false} NormKeepsDictsSymbolFree(round: Rounding, x: K)
    requires ItemOk(x) && SymbolFreeDicts(x)
    ensures SymbolFreeDicts(NormItem(round, x))
    decreases x
  {
    match x
    case AtomK(a) =>
    case VectorK(v) =>
      forall n | 0 <= n < v.Count()
        ensures SymbolFreeDicts(NormElements(round, v, 0)[n])
      {
        NormElementsAt(round, v, 0, n);
      }
    case DictK(keys, values) =>
      forall n | 0 <= n < Count(values)
        ensures NormValues(round, values).ListK? && |NormValues(round, values).items| == Count(values)
        ensures NormValues(round, values).items[n].AtomK? ==> SymbolFreeAtom(NormValues(round, values).items[n].atom)
      {
        NormValueAt(round, values, n);
      }
    case ListK(items) =>
      forall n | 0 <= n < |items|
        ensures SymbolFreeDicts(NormItems(round, items)[n])
      {
        NormItemsAt(round, items, n);
        NormKeepsDictsSymbolFree(round, items[n]);
      }
  }
}
