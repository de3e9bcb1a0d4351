/** The encode functions and publishToSolace of src/solace.c in place: they append to containers, and the
    dictionary encoder works on the global `rc`. Library calls that are not about containers succeed,
    except sending, whose result is a parameter. */
module Publishers {
  import opened Wrappers
  import opened KObjects
  import opened Containers
  import opened Encoding

  /** What a loop has added so far, and then what the rest of it adds and returns. */
  ghost function Prefixed(done: seq<Entry>, rest: Encoded): Encoded {
    Encoded(done + rest.entries, rest.rc, rest.global)
  }

  lemma PrefixedTwice(a: seq<Entry>, b: seq<Entry>, rest: Encoded)
    ensures Prefixed(a, Prefixed(b, rest)) == Prefixed(a + b, rest)
  {
    assert a + (b + rest.entries) == a + b + rest.entries;
  }

  class Publisher {
    /** The global `rc`. */
    var rc: int

    constructor ()
      ensures rc == SOLCLIENT_OK
    {
      rc := SOLCLIENT_OK;
    }

    /** encodeKdbAtomToSolaceContainer */
    method EncodeAtom(x: Atom, name: Option<string>, c: Container) returns (r: int)
      requires c.kind.Map? == name.Some?
      modifies c`entries
      ensures c.entries == old(c.entries) + Entries(name, AtomField(x)) && r == Code(AtomField(x))
    {
      r := SOLCLIENT_FAIL;
      match x {
        case Symbol(s) => r := c.Add(name, StringField(s));
        case Char(ch) => r := c.Add(name, WCharField(ch));
        case Float(f) => r := c.Add(name, DoubleField(f));
        case Real(e) => r := c.Add(name, FloatField(e));
        case Long(_, j) => r := c.Add(name, Int64Field(j));
        case Int(_, i) => r := c.Add(name, Int32Field(i));
        case Short(h) => r := c.Add(name, Int16Field(h));
        case Boolean(b) => r := c.Add(name, BoolField(b));
        case Byte(_) =>
        case Guid(_) =>
      }
    }

    /** encodeKdbVectorElementToSolaceContainer */
    method EncodeVectorElement(v: Vector, name: Option<string>, index: nat, c: Container) returns (r: int)
      requires index < v.Count() && c.kind.Map? == name.Some?
      modifies c`entries
      ensures c.entries == old(c.entries) + Entries(name, ElementField(v, index)) && r == Code(ElementField(v, index))
    {
      r := SOLCLIENT_FAIL;
      match v {
        case Symbols(ss) => r := c.Add(name, StringField(ss[index]));
        case Chars(cs) => r := c.Add(name, WCharField(cs[index]));
        case Floats(fs) => r := c.Add(name, DoubleField(fs[index]));
        case Reals(es) => r := c.Add(name, FloatField(es[index]));
        case Longs(_, longs) => r := c.Add(name, Int64Field(longs[index]));
        case Ints(_, ints) => r := c.Add(name, Int32Field(ints[index]));
        case Shorts(hs) => r := c.Add(name, Int16Field(hs[index]));
        case Booleans(bs) => r := c.Add(name, BoolField(bs[index]));
        case Bytes(_) =>
        case Guids(_) =>
      }
    }

    /** One round of the loop over the keys of a dictionary. */
    method EncodeDictValue(values: K, name: string, i: nat, c: Container)
      requires i < Count(values) && !values.AtomK? && c.kind.Map?
      modifies this`rc, c`entries
      ensures c.entries == old(c.entries) + Entries(Some(name), ValueField(values, i))
      ensures rc == Code(ValueField(values, i))
    {
      if values.ListK? && values.items[i].AtomK? {
        rc := EncodeAtom(values.items[i].atom, Some(name), c);
      } else if values.VectorK? {
        rc := EncodeVectorElement(values.v, Some(name), i, c);
      } else {
        rc := SOLCLIENT_FAIL;
      }
    }

    /** encodeKdbDictionaryToSolaceContainer */
    method EncodeDictionary(keys: K, values: K, c: Container) returns (r: int)
      requires Count(keys) == Count(values) && !values.AtomK? && c.kind.Map?
      modifies this`rc, c`entries
      ensures var e := EncodeDict(keys, values, old(rc));
              c.entries == old(c.entries) + e.entries && r == e.rc && rc == e.global
    {
      if !SymbolKeys(keys) {
        return SOLCLIENT_FAIL;
      }
      if rc == SOLCLIENT_FAIL {
        return rc;
      }
      var names := keys.v.ss;
      var i := 0;
      ghost var done := [];
      ghost var whole := EncodePairs(names, values, 0, rc);
      while i < |names|
        invariant i <= |names| && c.entries == old(c.entries) + done
        invariant whole == Prefixed(done, EncodePairs(names, values, i, rc))
      {
        ghost var field := Entries(Some(names[i]), ValueField(values, i));
        EncodeDictValue(values, names[i], i, c);
        PrefixedTwice(done, field, EncodePairs(names, values, i + 1, rc));
        done := done + field;
        i := i + 1;
      }
      r := rc;
    }

    /** The loop of encodeKdbVectorToSolaceContainer over a vector. */
    method EncodeVectorElements(v: Vector, c: Container) returns (r: int)
      requires c.kind.Stream?
      modifies c`entries
      ensures c.entries == old(c.entries) + EncodeElements(v, 0).0 && r == EncodeElements(v, 0).1
    {
      var i := 0;
      ghost var done := [];
      ghost var whole := EncodeElements(v, 0);
      while i < v.Count()
        invariant i <= v.Count() && c.entries == old(c.entries) + done
        invariant whole.0 == done + EncodeElements(v, i).0 && whole.1 == EncodeElements(v, i).1
      {
        ghost var field := Entries(None, ElementField(v, i));
        ghost var before, rest := done, EncodeElements(v, i + 1).0;
        var added := EncodeVectorElement(v, None, i, c);
        if added == SOLCLIENT_FAIL {
          return SOLCLIENT_FAIL;
        }
        done := done + field;
        assert before + (field + rest) == done + rest;
        i := i + 1;
      }
      r := SOLCLIENT_OK;
    }

    /** encodeKdbVectorToSolaceContainer */
    method EncodeVectorOrDict(x: K, c: Container) returns (r: int)
      requires WellFormed(x) && !x.AtomK? && !x.ListK? && (x.DictK? <==> c.kind.Map?)
      modifies this`rc, c`entries
      ensures var e := EncodeVector(x, old(rc));
              c.entries == old(c.entries) + e.entries && r == e.rc && rc == e.global
    {
      if x.DictK? {
        r := EncodeDictionary(x.keys, x.values, c);
      } else if x.TableK? {
        r := SOLCLIENT_FAIL;
      } else {
        r := EncodeVectorElements(x.v, c);
      }
    }

    /** encodeToSolaceContainer */
    method EncodeTo(x: K, c: Container) returns (r: int)
      requires WellFormed(x) && c.kind.Stream?
      modifies this`rc, c`entries
      ensures var e := Encode(x, old(rc));
              c.entries == old(c.entries) + e.entries && r == e.rc && rc == e.global
      decreases x, 1
    {
      if x.DictK? {
        var sub := new Container.Create(Map);
        ghost var content := EncodeVector(x, rc).entries;
        var encoded := EncodeVectorOrDict(x, sub);
        assert sub.entries == content;
        var added := c.AddContainer(sub, None);
        r := encoded + added;
      } else if x.AtomK? {
        r := EncodeAtom(x.atom, None, c);
      } else if x.ListK? {
        r := EncodeListItems(x.items, c);
      } else {
        r := EncodeVectorOrDict(x, c);
      }
    }

    /** One round of the loop over a general list. */
    method EncodeListItem(x: K, c: Container) returns (r: int)
      requires WellFormed(x) && c.kind.Stream?
      modifies this`rc, c`entries
      ensures var e := EncodeItem(x, old(rc));
              c.entries == old(c.entries) + e.entries && r == e.rc && rc == e.global
      decreases x, 2
    {
      if x.AtomK? {
        r := EncodeAtom(x.atom, None, c);
      } else if x.ListK? {
        var sub := new Container.Create(Stream);
        ghost var content := Encode(x, rc).entries;
        r := EncodeTo(x, sub);
        assert sub.entries == content;
        r := c.AddContainer(sub, None);
      } else {
        var sub := new Container.Create(if x.DictK? then Map else Stream);
        ghost var content := EncodeVector(x, rc).entries;
        r := EncodeVectorOrDict(x, sub);
        assert sub.entries == content;
        var added := c.AddContainer(sub, None);
        r := r + added;
      }
    }

    /** The loop of encodeToSolaceContainer over a general list. */
    method EncodeListItems(items: seq<K>, c: Container) returns (r: int)
      requires (forall k :: 0 <= k < |items| ==> WellFormed(items[k])) && c.kind.Stream?
      modifies this`rc, c`entries
      ensures var e := EncodeItems(items, SOLCLIENT_FAIL, old(rc));
              c.entries == old(c.entries) + e.entries && r == e.rc && rc == e.global
      decreases items, 0
    {
      r := SOLCLIENT_FAIL;
      var i := 0;
      ghost var done := [];
      ghost var whole := EncodeItems(items, r, rc);
      assert items[0..] == items;
      while i < |items|
        invariant i <= |items| && c.entries == old(c.entries) + done
        invariant whole == Prefixed(done, EncodeItems(items[i..], r, rc))
      {
        ghost var first := EncodeItem(items[i], rc);
        assert items[i..][1..] == items[i + 1..];
        r := EncodeListItem(items[i], c);
        PrefixedTwice(done, first.entries, EncodeItems(items[i + 1..], r, rc));
        done := done + first.entries;
        i := i + 1;
      }
      assert items[i..] == [];
    }

    /** publishtosolace and publishToSolace: atoms are refused, and a message whose encoding does not
        report OK is not sent. */
    method Publish(message: K, sendResult: int) returns (p: Published)
      requires WellFormed(message)
      modifies this`rc
      ensures p == Outcome(message, sendResult)
      ensures p.Failed? ==> rc == p.code
      ensures p.Sent? ==> rc == SOLCLIENT_OK
      ensures p.Refused? ==> rc == old(rc)
    {
      if message.AtomK? {
        return Refused;
      }
      rc := SOLCLIENT_OK;
      var stream := new Container.Create(Stream);
      var encoded := EncodeTo(message, stream);
      rc := encoded;
      if rc != SOLCLIENT_OK {
        return Failed(rc);
      }
      rc := sendResult;
      if rc != SOLCLIENT_OK {
        return Failed(rc);
      }
      p := Sent(stream.entries);
    }
  }
}
