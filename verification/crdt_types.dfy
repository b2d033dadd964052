/**
  The data model of the miniature CRDT engine (packages/shared/crdt.ts):
  operations, changes, the per-object stores and the errors the engine throws.

  Object ids, element ids and winning op ids are kept as the strings the
  engine stores (`"_root"` or `"counter@actor"`); the order on them comes
  from module OpIds.
 */
module CrdtTypes {

  /** The distinguished object that exists from construction on. */
  const RootId: string := "_root"

  /** The list key meaning "insert at the front". */
  const HeadKey: string := "_head"

  /** A primitive carried by a `set` operation; `Undefined` is an absent `value`. */
  datatype Prim = Str(s: string) | Num(n: int) | Bool(b: bool) | Null | Undefined

  /** What a map field or a list slot holds: a primitive, or the id of a child
      object (the source stores the child array itself; see README). */
  datatype Value = Prim(p: Prim) | Ref(obj: string)

  datatype Action = MakeMap | MakeList | Set | Del
  {
    /** `op.action.startsWith('make')`. */
    predicate IsMake()
    {
      MakeMap? || MakeList?
    }
  }

  datatype Op = Op(action: Action, obj: string, key: string, insert: bool, value: Prim)

  /** A change as delivered. `startOp` is a natural number; the source also
      accepts a negative one, which the model does not represent. */
  datatype Change = Change(actor: string, seqNum: int, deps: map<string, int>, startOp: nat, ops: seq<Op>)

  /** One list-metadata record. `elemId` and `valueId` are as in the source; the
      model also keeps `value`, the value last written under `valueId`, which the
      source does not store: it exists only to state which values the
      materialised array must hold. */
  datatype ElemRec = ElemRec(elemId: string, valueId: string, deleted: bool, value: Value)

  /** An object together with its metadata. A map pairs its fields with the op
      id that currently owns each field; a list pairs its visible values with
      its element records, tombstones included. */
  datatype Entry =
    | MapEntry(fields: map<string, Value>, winners: map<string, string>)
    | ListEntry(items: seq<Value>, meta: seq<ElemRec>)

  /** The engine state: each actor's log of applied changes, and every object
      with its metadata keyed by object id. */
  datatype Doc = Doc(byActor: map<string, seq<Change>>, store: map<string, Entry>)

  datatype Error =
    | SequenceError(expected: int, got: int)
    | DependencyError
    | ObjectNotFound(obj: string)
    | ElementNotFound(elem: string)
    | MalformedOpId

  /** The state after a step: `Thrown` carries the state as it was when the
      exception left the engine, which is not always the state before the step. */
  datatype Outcome = Ok(doc: Doc) | Thrown(err: Error, doc: Doc)

  /** The document a fresh engine holds: an empty root map and no history. */
  function Init(): (d: Doc)
    ensures d.store.Keys == {RootId} && d.store[RootId] == MapEntry(map[], map[])
    ensures d.byActor == map[]
  {
    Doc(map[], map[RootId := MapEntry(map[], map[])])
  }
}
