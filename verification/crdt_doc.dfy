/**
  The document level of the CRDT engine: `applyOp`, `applyChange` and reading
  the document back as plain nested data (packages/shared/crdt.ts:47-139).

  The source is a closure over three mutable tables; here the state is an
  immutable `Doc` and every step returns the next one. A step that throws
  returns the state as it stood at the throw: the source performs no rollback,
  so a change whose third op fails keeps its first two ops and its log entry.
 */
module Crdt {
  import opened Wrappers
  import opened OpIds
  import opened CrdtTypes
  import opened CrdtList
  import opened CrdtMap

  // ---------------------------------------------------------------------------
  // Representation invariant

  /** What the engine always maintains: the root exists and is a map, and
      every list's visible array is the live values of its metadata. */
  predicate Wf(d: Doc)
  {
    && RootId in d.store && d.store[RootId].MapEntry?
    && forall id | id in d.store && d.store[id].ListEntry? :: Materialised(d.store[id])
  }

  /** Formatted op ids start with a digit, so no op ever reallocates the root. */
  lemma OpIdIsNotRoot(id: OpId)
    ensures FormatOpId(id) != RootId
  {
    assert FormatOpId(id)[0] == NatToString(id.counter)[0];
    assert IsDigit(FormatOpId(id)[0]);
  }

  lemma InitWf()
    ensures Wf(Init())
  {
  }

  // ---------------------------------------------------------------------------
  // applyOp

  /** The value an op stores: a reference to the object it creates, or its primitive. */
  function OpValue(op: Op, id: string): Value
  {
    if op.action.IsMake() then Ref(id) else Prim(op.value)
  }

  /** The object store after the allocation an op performs before it is
      dispatched: `make*` binds its own id to a fresh empty list. */
  function Allocate(store: map<string, Entry>, op: Op, id: string): map<string, Entry>
  {
    if op.action.IsMake() then store[id := ListEntry([], [])] else store
  }

  /** The shape-dependent part of `applyOp`: lists take inserts and updates,
      maps take last-writer-wins writes. */
  function Dispatch(target: Entry, op: Op, id: string): (r: Result<Entry, Error>)
    requires target.MapEntry? || Materialised(target)
    ensures r.Success? && target.MapEntry? ==> r.value.MapEntry?
    ensures r.Success? && target.ListEntry? ==> Materialised(r.value)
    ensures r.Failure? ==> r.error.ElementNotFound? || r.error == MalformedOpId
  {
    var value := OpValue(op, id);
    if target.ListEntry? then
      if op.insert then ApplyListInsert(target, op.key, id, value)
      else ApplyListUpdate(target, op.key, id, op.action.Del?, value)
    else ApplyMapOp(target, op.key, id, op.action.Del?, value)
  }

  /** Replacing one object by one of the same kind keeps the invariant. */
  lemma WfReplace(d: Doc, obj: string, e: Entry)
    requires Wf(d) && obj in d.store
    requires d.store[obj].MapEntry? ==> e.MapEntry?
    requires d.store[obj].ListEntry? ==> Materialised(e)
    ensures Wf(d.(store := d.store[obj := e]))
  {
  }

  /** `applyOp`: fails with `ObjectNotFound` on an unknown target; otherwise
      allocates the object a `make*` creates, then dispatches on the target's
      shape to the list branch (insert or update) or the map branch. */
  function ApplyOp(d: Doc, op: Op, opId: OpId): (r: Outcome)
    requires Wf(d)
    ensures Wf(r.doc) && r.doc.byActor == d.byActor
    ensures op.obj !in d.store <==> r == Thrown(ObjectNotFound(op.obj), d)
    ensures op.obj in d.store ==>
              r.doc.store.Keys == d.store.Keys + (if op.action.IsMake() then {FormatOpId(opId)} else {})
    ensures op.obj in d.store ==> forall id | id in d.store && id != op.obj && id != FormatOpId(opId) ::
              r.doc.store[id] == d.store[id]
    ensures op.obj in d.store && op.action.IsMake() && op.obj != FormatOpId(opId) ==>
              r.doc.store[FormatOpId(opId)] == ListEntry([], [])
    ensures r.Thrown? && op.obj in d.store ==>
              (r.err.ElementNotFound? || r.err == MalformedOpId)
              && r.doc.store == Allocate(d.store, op, FormatOpId(opId))
  {
    if op.obj !in d.store then Thrown(ObjectNotFound(op.obj), d)
    else
      var id := FormatOpId(opId);
      OpIdIsNotRoot(opId);
      var d1 := d.(store := Allocate(d.store, op, id));
      assert Wf(d1);
      match Dispatch(d1.store[op.obj], op, id)
      case Success(e) =>
        WfReplace(d1, op.obj, e);
        Ok(d1.(store := d1.store[op.obj := e]))
      case Failure(err) => Thrown(err, d1)
  }

  /** What `applyOp` does to its target: after the allocation, a map target
      takes the last-writer-wins step, a list target the insert or the update
      step, with a `make*` op storing a reference to the object it created; the
      op succeeds exactly when that step does, and throws the step's error. */
  lemma ApplyOpTarget(d: Doc, op: Op, opId: OpId)
    requires Wf(d) && op.obj in d.store
    ensures var id := FormatOpId(opId);
            var t := if op.action.IsMake() && op.obj == id then ListEntry([], []) else d.store[op.obj];
            var v := if op.action.IsMake() then Ref(id) else Prim(op.value);
            var step := if t.MapEntry? then ApplyMapOp(t, op.key, id, op.action.Del?, v)
                        else if op.insert then ApplyListInsert(t, op.key, id, v)
                        else ApplyListUpdate(t, op.key, id, op.action.Del?, v);
            var r := ApplyOp(d, op, opId);
            && (r.Ok? <==> step.Success?)
            && (step.Success? ==> r.doc.store[op.obj] == step.value)
            && (step.Failure? ==> r.err == step.error)
  {
  }

  /** A `make*` op under a fresh id that wins a map field stores a reference
      to the new child there, and the field then reads as an empty list: the
      child is the object the op allocated, not a copy. */
  lemma MakeStoresReference(d: Doc, op: Op, opId: OpId)
    requires Wf(d) && op.obj in d.store && d.store[op.obj].MapEntry? && op.action.IsMake()
    requires FormatOpId(opId) !in d.store
    requires Wins(d.store[op.obj], op.key, FormatOpId(opId))
    ensures var id := FormatOpId(opId);
            var r := ApplyOp(d, op, opId);
            && r.Ok? && id in r.doc.store && r.doc.store[id] == ListEntry([], [])
            && op.key in r.doc.store[op.obj].fields && r.doc.store[op.obj].fields[op.key] == Ref(id)
            && Materialize(r.doc, r.doc.store[op.obj].fields[op.key], 1) == JList([])
  {
  }

  // ---------------------------------------------------------------------------
  // applyChange

  /** The number of changes applied so far from `actor`. */
  function LogLength(d: Doc, actor: string): nat
  {
    if actor in d.byActor then |d.byActor[actor]| else 0
  }

  /** Every declared dependency `(actor, seq)` is already applied. */
  predicate DepsMet(d: Doc, deps: map<string, int>)
  {
    forall a | a in deps :: a in d.byActor && |d.byActor[a]| >= deps[a]
  }

  /** The op id of the op at `index` in a change: `(startOp + index)@actor`. */
  function OpIdAt(c: Change, index: nat): OpId
  {
    OpId(c.startOp + index, c.actor)
  }

  /** The ops of `c` from `index` on, in order, stopping at the first throw. */
  function ApplyOpsFrom(d: Doc, c: Change, index: nat): (r: Outcome)
    requires Wf(d) && index <= |c.ops|
    ensures Wf(r.doc) && r.doc.byActor == d.byActor
    ensures d.store.Keys <= r.doc.store.Keys
    ensures r.Ok? ==> forall i | index <= i < |c.ops| && c.ops[i].action.IsMake() ::
              FormatOpId(OpIdAt(c, i)) in r.doc.store
    decreases |c.ops| - index
  {
    if index == |c.ops| then Ok(d)
    else match ApplyOp(d, c.ops[index], OpIdAt(c, index))
      case Thrown(err, d1) => Thrown(err, d1)
      case Ok(d1) =>
        var r := ApplyOpsFrom(d1, c, index + 1);
        OpsFromStep(d, c, index, d1, r);
        r
  }

  /** The op at `index` succeeded with `d1`, and the rest of the ops took `d1` to `r`. */
  lemma OpsFromStep(d: Doc, c: Change, index: nat, d1: Doc, r: Outcome)
    requires Wf(d) && index < |c.ops|
    requires ApplyOp(d, c.ops[index], OpIdAt(c, index)) == Ok(d1)
    requires Wf(r.doc) && r.doc.byActor == d1.byActor && d1.store.Keys <= r.doc.store.Keys
    requires r.Ok? ==> forall i | index + 1 <= i < |c.ops| && c.ops[i].action.IsMake() ::
               FormatOpId(OpIdAt(c, i)) in r.doc.store
    ensures r.doc.byActor == d.byActor && d.store.Keys <= r.doc.store.Keys
    ensures r.Ok? ==> forall i | index <= i < |c.ops| && c.ops[i].action.IsMake() ::
              FormatOpId(OpIdAt(c, i)) in r.doc.store
  {
    assert c.ops[index].obj in d.store;
  }

  /** `applyChange`: rejects a change whose sequence number is not the next
      one for its actor, or one with an unmet dependency, leaving the state
      untouched; otherwise appends it to its actor's log and applies its ops
      with ids `(startOp + i)@actor`. */
  function ApplyChange(d: Doc, c: Change): (r: Outcome)
    requires Wf(d)
    ensures Wf(r.doc)
    ensures c.seqNum != LogLength(d, c.actor) + 1 ==>
              r == Thrown(SequenceError(LogLength(d, c.actor) + 1, c.seqNum), d)
    ensures c.seqNum == LogLength(d, c.actor) + 1 && !DepsMet(d, c.deps) ==> r == Thrown(DependencyError, d)
    ensures c.seqNum == LogLength(d, c.actor) + 1 && DepsMet(d, c.deps) ==>
              && c.actor in r.doc.byActor
              && r.doc.byActor == d.byActor[c.actor := (if c.actor in d.byActor then d.byActor[c.actor] else []) + [c]]
              && LogLength(r.doc, c.actor) == LogLength(d, c.actor) + 1
              && d.store.Keys <= r.doc.store.Keys
    ensures r.Ok? ==> forall i | 0 <= i < |c.ops| && c.ops[i].action.IsMake() ::
              FormatOpId(OpIdAt(c, i)) in r.doc.store
  {
    var last := LogLength(d, c.actor);
    if c.seqNum != last + 1 then Thrown(SequenceError(last + 1, c.seqNum), d)
    else if !DepsMet(d, c.deps) then Thrown(DependencyError, d)
    else
      var log := if c.actor in d.byActor then d.byActor[c.actor] else [];
      ApplyOpsFrom(d.(byActor := d.byActor[c.actor := log + [c]]), c, 0)
  }

  /** Changes applied one after another; the first throw ends the run. */
  function ApplyChanges(d: Doc, cs: seq<Change>): (r: Outcome)
    requires Wf(d)
    ensures Wf(r.doc)
    decreases |cs|
  {
    if |cs| == 0 then Ok(d)
    else match ApplyChange(d, cs[0])
      case Thrown(err, d1) => Thrown(err, d1)
      case Ok(d1) => ApplyChanges(d1, cs[1..])
  }

  /** A run of changes that throws nowhere only extends the logs: every
      actor's earlier log is a prefix of its new one, and every delivered
      change is in its actor's log. */
  lemma {:induction false} ChangesLogged(d: Doc, cs: seq<Change>)
    requires Wf(d)
    ensures var r := ApplyChanges(d, cs);
            r.Ok? ==> forall a | a in d.byActor :: a in r.doc.byActor && d.byActor[a] <= r.doc.byActor[a]
    ensures var r := ApplyChanges(d, cs);
            r.Ok? ==> forall i | 0 <= i < |cs| :: cs[i].actor in r.doc.byActor && cs[i] in r.doc.byActor[cs[i].actor]
    decreases |cs|
  {
    if |cs| > 0 && ApplyChange(d, cs[0]).Ok? {
      var d1 := ApplyChange(d, cs[0]).doc;
      assert cs[0].seqNum == LogLength(d, cs[0].actor) + 1 && DepsMet(d, cs[0].deps);
      ChangesLogged(d1, cs[1..]);
      LoggedStep(d, cs, d1, ApplyChanges(d1, cs[1..]));
    }
  }

  /** The first change was logged in `d1`, and the rest took `d1` to `r`. */
  lemma LoggedStep(d: Doc, cs: seq<Change>, d1: Doc, r: Outcome)
    requires |cs| > 0
    requires d1.byActor == d.byActor[cs[0].actor := (if cs[0].actor in d.byActor then d.byActor[cs[0].actor] else []) + [cs[0]]]
    requires r.Ok? ==> forall a | a in d1.byActor :: a in r.doc.byActor && d1.byActor[a] <= r.doc.byActor[a]
    requires r.Ok? ==> forall i | 0 <= i < |cs[1..]| :: cs[1..][i].actor in r.doc.byActor && cs[1..][i] in r.doc.byActor[cs[1..][i].actor]
    ensures r.Ok? ==> forall a | a in d.byActor :: a in r.doc.byActor && d.byActor[a] <= r.doc.byActor[a]
    ensures r.Ok? ==> forall i | 0 <= i < |cs| :: cs[i].actor in r.doc.byActor && cs[i] in r.doc.byActor[cs[i].actor]
  {
    var c := cs[0];
    var log := if c.actor in d.byActor then d.byActor[c.actor] else [];
    if r.Ok? {
      var fin := r.doc.byActor[c.actor];
      assert d1.byActor[c.actor] == log + [c] <= fin;
      assert fin[|log|] == c;
      forall i | 1 <= i < |cs|
        ensures cs[i].actor in r.doc.byActor && cs[i] in r.doc.byActor[cs[i].actor]
      {
        assert cs[i] == cs[1..][i - 1];
      }
    }
  }

  /** Re-delivering an applied change is always refused and changes nothing:
      the actor's log already counts it. */
  lemma DuplicateRejected(d: Doc, c: Change)
    requires Wf(d)
    requires ApplyChange(d, c).Ok?
    ensures var d1 := ApplyChange(d, c).doc;
            ApplyChange(d1, c) == Thrown(SequenceError(c.seqNum + 1, c.seqNum), d1)
  {
  }

  // ---------------------------------------------------------------------------
  // Reading the document

  /** Plain nested data, as `deepStrictEqual` sees the root object. `JMissing`
      stands for a reference to no object or a nesting deeper than asked for. */
  datatype Json = JPrim(p: Prim) | JMap(fields: map<string, Json>) | JList(items: seq<Json>) | JMissing

  /** Follow references from `v` down to `depth` levels of objects. */
  function Materialize(d: Doc, v: Value, depth: nat): (j: Json)
    ensures v.Prim? ==> j == JPrim(v.p)
    ensures v.Ref? && depth > 0 && v.obj in d.store && d.store[v.obj].MapEntry? ==>
              j.JMap? && j.fields.Keys == d.store[v.obj].fields.Keys
    ensures v.Ref? && depth > 0 && v.obj in d.store && d.store[v.obj].ListEntry? ==>
              j.JList? && |j.items| == |d.store[v.obj].items|
    decreases depth
  {
    match v
    case Prim(p) => JPrim(p)
    case Ref(id) =>
      if depth == 0 || id !in d.store then JMissing
      else match d.store[id]
        case MapEntry(fields, _) => JMap(map k | k in fields :: Materialize(d, fields[k], depth - 1))
        case ListEntry(items, _) => JList(seq(|items|, i requires 0 <= i < |items| => Materialize(d, items[i], depth - 1)))
  }

  /** The root object read as plain data. */
  function RootValue(d: Doc, depth: nat): Json
  {
    Materialize(d, Ref(RootId), depth)
  }
}
