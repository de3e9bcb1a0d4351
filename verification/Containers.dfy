/** Solace containers: an ordered sequence of fields, named in a map and unnamed in a stream. */
module Containers {
  import opened Wrappers

  const SOLCLIENT_OK: int := 0
  const SOLCLIENT_FAIL: int := -1

  datatype Field =
    | BoolField(b: bool)
    | UInt8Field(u: nat)
    | Int8Field(i: int)
    | UInt16Field(u: nat)
    | Int16Field(i: int)
    | UInt32Field(u: nat)
    | Int32Field(i: int)
    | UInt64Field(u: nat)
    | Int64Field(i: int)
    | WCharField(c: char)
    | StringField(s: string)
    | ByteArrayField(a: seq<int>)
    | FloatField(f: real)
    | DoubleField(f: real)
    | MapField(entries: seq<Entry>)
    | StreamField(entries: seq<Entry>)
    | UnknownField
    | NullField
    | DestinationField(s: string)
    | SmfField(a: seq<int>)

  datatype Entry = Entry(name: Option<string>, field: Field)

  datatype ContainerKind = Map | Stream

  class Container {
    const kind: ContainerKind
    var entries: seq<Entry>
    /** The next field that getNextField returns. */
    var cursor: nat

    /** createMap, createStream: an empty container to add to. */
    constructor Create(kind: ContainerKind)
      ensures this.kind == kind && entries == [] && cursor == 0
    {
      this.kind := kind;
      entries, cursor := [], 0;
    }

    /** A handle on a received container, positioned on its first field. */
    constructor Open(kind: ContainerKind, entries: seq<Entry>)
      ensures this.kind == kind && this.entries == entries && cursor == 0
    {
      this.kind := kind;
      this.entries, cursor := entries, 0;
    }

    /** The addXXX functions: a map wants a name, a stream wants none. */
    method Add(name: Option<string>, field: Field) returns (rc: int)
      modifies this`entries
      ensures rc == if kind.Map? == name.Some? then SOLCLIENT_OK else SOLCLIENT_FAIL
      ensures entries == if rc == SOLCLIENT_OK then old(entries) + [Entry(name, field)] else old(entries)
    {
      if kind.Map? != name.Some? {
        return SOLCLIENT_FAIL;
      }
      entries := entries + [Entry(name, field)];
      rc := SOLCLIENT_OK;
    }

    /** addContainer copies `sub` in: later changes to `sub` do not show. */
    method AddContainer(sub: Container, name: Option<string>) returns (rc: int)
      modifies this`entries
      ensures rc == if kind.Map? == name.Some? then SOLCLIENT_OK else SOLCLIENT_FAIL
      ensures entries == if rc == SOLCLIENT_OK then old(entries) + [Entry(name, AsField(sub.kind, old(sub.entries)))]
                         else old(entries)
    {
      rc := Add(name, AsField(sub.kind, sub.entries));
    }

    method HasNextField() returns (more: bool)
      ensures more <==> cursor < |entries|
    {
      more := cursor < |entries|;
    }

    method GetNextField() returns (e: Entry)
      requires cursor < |entries|
      modifies this`cursor
      ensures e == entries[old(cursor)] && cursor == old(cursor) + 1
    {
      e := entries[cursor];
      cursor := cursor + 1;
    }
  }

  function AsField(kind: ContainerKind, entries: seq<Entry>): Field {
    if kind.Map? then MapField(entries) else StreamField(entries)
  }
}
