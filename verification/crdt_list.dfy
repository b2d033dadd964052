/**
  List objects of the CRDT engine: `findListElement`, `applyListInsert` and
  `applyListUpdate` (packages/shared/crdt.ts:141-214).

  A list keeps its visible values in `items` and one record per element ever
  inserted in `meta`. Deleted records stay as tombstones so that later inserts
  can still be placed relative to them.
 */
module CrdtList {
  import opened Wrappers
  import opened OpIds
  import opened CrdtTypes

  // ---------------------------------------------------------------------------
  // The materialisation invariant

  /** The values of the records that are not deleted, in metadata order. */
  function Live(meta: seq<ElemRec>): seq<Value>
  {
    if |meta| == 0 then []
    else Live(meta[..|meta| - 1]) + (if meta[|meta| - 1].deleted then [] else [meta[|meta| - 1].value])
  }

  /** The visible array is exactly the live values of the metadata, in order. */
  predicate Materialised(e: Entry)
  {
    e.ListEntry? && e.items == Live(e.meta)
  }

  lemma {:induction false} LiveAppend(a: seq<ElemRec>, b: seq<ElemRec>)
    ensures Live(a + b) == Live(a) + Live(b)
    decreases |b|
  {
    if |b| > 0 {
      var b' := b[..|b| - 1];
      assert (a + b)[..|a + b| - 1] == a + b';
      LiveAppend(a, b');
    } else {
      assert a + b == a;
    }
  }

  lemma LiveStep(meta: seq<ElemRec>, i: nat)
    requires i < |meta|
    ensures Live(meta[..i + 1]) == Live(meta[..i]) + (if meta[i].deleted then [] else [meta[i].value])
  {
    assert meta[..i + 1][..i] == meta[..i];
  }

  /** The ids of all elements ever inserted, and of those deleted. */
  function ElemIds(meta: seq<ElemRec>): set<string>
  {
    set j | 0 <= j < |meta| :: meta[j].elemId
  }

  function Tombstones(meta: seq<ElemRec>): set<string>
  {
    set j | 0 <= j < |meta| && meta[j].deleted :: meta[j].elemId
  }

  /** `i` is the first metadata position holding `elemId`: where the scan stops. */
  predicate FirstWith(meta: seq<ElemRec>, elemId: string, i: nat)
  {
    i < |meta| && meta[i].elemId == elemId && forall k :: 0 <= k < i ==> meta[k].elemId != elemId
  }

  // ---------------------------------------------------------------------------
  // findListElement

  function FindFrom(meta: seq<ElemRec>, elemId: string, index: nat, visible: nat): (r: Option<(nat, nat)>)
    requires index <= |meta| && visible == |Live(meta[..index])|
    requires forall k :: 0 <= k < index ==> meta[k].elemId != elemId
    ensures r.Some? ==> FirstWith(meta, elemId, r.value.0) && r.value.1 == |Live(meta[..r.value.0])|
    ensures r.None? ==> forall k :: 0 <= k < |meta| ==> meta[k].elemId != elemId
    decreases |meta| - index
  {
    if index == |meta| then None
    else if meta[index].elemId == elemId then Some((index, visible))
    else
      LiveStep(meta, index);
      FindFrom(meta, elemId, index + 1, if meta[index].deleted then visible else visible + 1)
  }

  /** `findListElement`: the metadata index of the first record for `elemId`
      and the number of live records before it, or `ElementNotFound`. */
  function FindListElement(meta: seq<ElemRec>, elemId: string): (r: Result<(nat, nat), Error>)
    ensures r.Success? ==> FirstWith(meta, elemId, r.value.0) && r.value.1 == |Live(meta[..r.value.0])|
    ensures r.Failure? <==> elemId !in ElemIds(meta)
    ensures r.Failure? ==> r.error == ElementNotFound(elemId)
  {
    match FindFrom(meta, elemId, 0, 0)
    case Some(found) => Success(found)
    case None => Failure(ElementNotFound(elemId))
  }

  // ---------------------------------------------------------------------------
  // applyListInsert

  /** The scan past successors: from `index`, skip every record whose element
      id sorts after `id`, counting the live ones. `None` is a comparison that
      throws. */
  function SkipGreater(meta: seq<ElemRec>, id: string, index: nat, visible: nat): (r: Option<(nat, nat)>)
    requires index <= |meta| && visible == |Live(meta[..index])|
    ensures r.Some? ==> index <= r.value.0 <= |meta| && r.value.1 == |Live(meta[..r.value.0])|
    ensures r.Some? ==> forall k :: index <= k < r.value.0 ==> CompareOpIds(id, meta[k].elemId) == Some(true)
    ensures r.Some? && r.value.0 < |meta| ==> CompareOpIds(id, meta[r.value.0].elemId) == Some(false)
    ensures r.None? <==> exists k :: index <= k < |meta| && CompareOpIds(id, meta[k].elemId).None?
                                     && forall j :: index <= j < k ==> CompareOpIds(id, meta[j].elemId) == Some(true)
    decreases |meta| - index
  {
    if index == |meta| then Some((index, visible))
    else match CompareOpIds(id, meta[index].elemId)
      case None => None
      case Some(false) => Some((index, visible))
      case Some(true) =>
        LiveStep(meta, index);
        var r := SkipGreater(meta, id, index + 1, if meta[index].deleted then visible else visible + 1);
        SkipStep(meta, id, index, r);
        r
  }

  /** One record with a greater id passed: what the scan promises from
      `index + 1` it promises from `index`. */
  lemma SkipStep(meta: seq<ElemRec>, id: string, index: nat, r: Option<(nat, nat)>)
    requires index < |meta| && CompareOpIds(id, meta[index].elemId) == Some(true)
    requires r.Some? ==> index + 1 <= r.value.0 <= |meta| && r.value.1 == |Live(meta[..r.value.0])|
    requires r.Some? ==> forall k :: index + 1 <= k < r.value.0 ==> CompareOpIds(id, meta[k].elemId) == Some(true)
    requires r.None? <==> exists k :: index + 1 <= k < |meta| && CompareOpIds(id, meta[k].elemId).None?
                                      && forall j :: index + 1 <= j < k ==> CompareOpIds(id, meta[j].elemId) == Some(true)
    ensures r.Some? ==> forall k :: index <= k < r.value.0 ==> CompareOpIds(id, meta[k].elemId) == Some(true)
    ensures r.None? <==> exists k :: index <= k < |meta| && CompareOpIds(id, meta[k].elemId).None?
                                     && forall j :: index <= j < k ==> CompareOpIds(id, meta[j].elemId) == Some(true)
  {
  }

  /** Where the scan starts: just after the predecessor (counting it when it is
      live), or at the front for `_head`. */
  function InsertStart(meta: seq<ElemRec>, key: string): (r: Result<(nat, nat), Error>)
    ensures r.Success? ==> r.value.0 <= |meta| && r.value.1 == |Live(meta[..r.value.0])|
    ensures r.Success? && key == HeadKey ==> r.value.0 == 0
    ensures r.Success? && key != HeadKey ==> r.value.0 >= 1 && FirstWith(meta, key, r.value.0 - 1)
    ensures r.Failure? <==> key != HeadKey && key !in ElemIds(meta)
    ensures r.Failure? ==> r.error == ElementNotFound(key)
  {
    if key == HeadKey then Success((0, 0))
    else match FindListElement(meta, key)
      case Failure(err) => Failure(err)
      case Success((i, v)) =>
        LiveStep(meta, i);
        Success((i + 1, if meta[i].deleted then v else v + 1))
  }

  /** `q` is where an element with id `id` lands when the scan starts at `start`:
      past every record with a greater id, before the first one that is not. */
  predicate PlacedAt(meta: seq<ElemRec>, id: string, start: nat, q: nat)
  {
    start <= q <= |meta|
    && (forall k :: start <= k < q ==> CompareOpIds(id, meta[k].elemId) == Some(true))
    && (q < |meta| ==> CompareOpIds(id, meta[q].elemId) == Some(false))
  }

  /** The record an insertion adds: owned by its own op id and not deleted. */
  function NewRec(id: string, value: Value): ElemRec
  {
    ElemRec(id, id, false, value)
  }

  /** `applyListInsert` on a list whose visible array is materialised. */
  function ApplyListInsert(e: Entry, key: string, id: string, value: Value): (r: Result<Entry, Error>)
    requires Materialised(e)
    ensures r.Success? ==> Materialised(r.value)
    ensures r.Success? ==> exists start: nat, q: nat ::
              PlacedAt(e.meta, id, start, q)
              && (if key == HeadKey then start == 0 else start >= 1 && FirstWith(e.meta, key, start - 1))
              && r.value.meta == e.meta[..q] + [NewRec(id, value)] + e.meta[q..]
    ensures r.Success? ==> |r.value.meta| == |e.meta| + 1 && |r.value.items| == |e.items| + 1
    ensures r.Success? ==> ElemIds(r.value.meta) == ElemIds(e.meta) + {id}
                           && Tombstones(r.value.meta) == Tombstones(e.meta)
    ensures (r.Failure? && r.error.ElementNotFound?) <==> key != HeadKey && key !in ElemIds(e.meta)
    ensures r.Failure? ==> r.error == ElementNotFound(key) || r.error == MalformedOpId
  {
    match InsertStart(e.meta, key)
    case Failure(err) => Failure(err)
    case Success((start, v0)) =>
      match SkipGreater(e.meta, id, start, v0)
      case None => Failure(MalformedOpId)
      case Some((q, v)) =>
        SpliceLive(e.meta, q, NewRec(id, value));
        SpliceIds(e.meta, q, NewRec(id, value));
        assert PlacedAt(e.meta, id, start, q);
        var meta' := e.meta[..q] + [NewRec(id, value)] + e.meta[q..];
        var items' := e.items[..v] + [value] + e.items[v..];
        Success(ListEntry(items', meta'))
  }

  /** Splicing a live record in at metadata position `q` splices its value into
      the live values at the number of live records before `q`. */
  lemma SpliceLive(meta: seq<ElemRec>, q: nat, rec: ElemRec)
    requires q <= |meta| && !rec.deleted
    ensures var v := |Live(meta[..q])|;
            v <= |Live(meta)|
            && Live(meta[..q] + [rec] + meta[q..]) == Live(meta)[..v] + [rec.value] + Live(meta)[v..]
  {
    assert meta == meta[..q] + meta[q..];
    LiveAppend(meta[..q], meta[q..]);
    LiveAppend(meta[..q] + [rec], meta[q..]);
    LiveAppend(meta[..q], [rec]);
    assert Live([rec]) == [rec.value] by {
      assert [rec][..0] == [];
    }
    var v := |Live(meta[..q])|;
    assert Live(meta)[..v] == Live(meta[..q]);
    assert Live(meta)[v..] == Live(meta[q..]);
  }

  lemma SpliceIds(meta: seq<ElemRec>, q: nat, rec: ElemRec)
    requires q <= |meta| && !rec.deleted
    ensures ElemIds(meta[..q] + [rec] + meta[q..]) == ElemIds(meta) + {rec.elemId}
    ensures Tombstones(meta[..q] + [rec] + meta[q..]) == Tombstones(meta)
  {
    var m' := meta[..q] + [rec] + meta[q..];
    assert forall j :: 0 <= j < q ==> m'[j] == meta[j];
    assert forall j :: q < j < |m'| ==> m'[j] == meta[j - 1];
    assert m'[q] == rec;
    forall x | x in ElemIds(meta)
      ensures x in ElemIds(m')
    {
      var j :| 0 <= j < |meta| && meta[j].elemId == x;
      if j < q { assert m'[j].elemId == x; } else { assert m'[j + 1].elemId == x; }
    }
    forall x | x in Tombstones(meta)
      ensures x in Tombstones(m')
    {
      var j :| 0 <= j < |meta| && meta[j].deleted && meta[j].elemId == x;
      if j < q { assert m'[j].deleted && m'[j].elemId == x; } else { assert m'[j + 1].deleted && m'[j + 1].elemId == x; }
    }
  }

  // ---------------------------------------------------------------------------
  // applyListUpdate

  /** `applyListUpdate`: `del` tombstones the element and drops its visible
      value if it was live; `set` (and `make*` without insert) overwrites the
      element only when its current `valueId` sorts before `id`, and touches
      the visible array only when the element is live. */
  function ApplyListUpdate(e: Entry, key: string, id: string, isDel: bool, value: Value): (r: Result<Entry, Error>)
    requires Materialised(e)
    ensures r.Success? ==> Materialised(r.value)
    ensures r.Success? ==> |r.value.meta| == |e.meta|
    ensures r.Success? ==> forall k :: 0 <= k < |e.meta| ==>
              r.value.meta[k].elemId == e.meta[k].elemId && (e.meta[k].deleted ==> r.value.meta[k].deleted)
    ensures r.Success? ==> forall k :: 0 <= k < |e.meta| && !FirstWith(e.meta, key, k) ==> r.value.meta[k] == e.meta[k]
    ensures r.Success? && isDel ==> forall i: nat | FirstWith(e.meta, key, i) ::
              r.value.meta[i] == e.meta[i].(deleted := true)
    ensures r.Success? && !isDel ==> forall i: nat | FirstWith(e.meta, key, i) ::
              r.value.meta[i] == if CompareOpIds(e.meta[i].valueId, id) == Some(true)
                                 then e.meta[i].(valueId := id, value := value) else e.meta[i]
    ensures r.Failure? && r.error.ElementNotFound? <==> key !in ElemIds(e.meta)
    ensures r.Failure? ==> r.error == ElementNotFound(key) || (!isDel && r.error == MalformedOpId)
  {
    match FindListElement(e.meta, key)
    case Failure(err) => Failure(err)
    case Success((i, v)) =>
      var rec := e.meta[i];
      assert forall j: nat | FirstWith(e.meta, key, j) :: j == i;
      if isDel then
        TombstoneMaterialised(e, i);
        var items' := if rec.deleted then e.items else e.items[..v] + e.items[v + 1..];
        Success(ListEntry(items', e.meta[i := rec.(deleted := true)]))
      else
        match CompareOpIds(rec.valueId, id)
        case None => Failure(MalformedOpId)
        case Some(false) => Success(e)
        case Some(true) =>
          var rec' := rec.(valueId := id, value := value);
          OverwriteMaterialised(e, i, rec');
          var items' := if rec.deleted then e.items else e.items[v := value];
          Success(ListEntry(items', e.meta[i := rec']))
  }

  /** Tombstoning record `i` removes its slot from the visible array if it was live. */
  lemma TombstoneMaterialised(e: Entry, i: nat)
    requires Materialised(e) && i < |e.meta|
    ensures var v := |Live(e.meta[..i])|;
            (!e.meta[i].deleted ==> v < |e.items|)
            && Materialised(ListEntry(if e.meta[i].deleted then e.items else e.items[..v] + e.items[v + 1..],
                                      e.meta[i := e.meta[i].(deleted := true)]))
  {
    var rec' := e.meta[i].(deleted := true);
    var before, after := Live(e.meta[..i]), Live(e.meta[i + 1..]);
    UpdateLive(e.meta, i, rec');
    LiveSingle(rec');
    assert Live(e.meta[i := rec']) == before + after;
    LiveSplit(e.meta, i);
    LiveSingle(e.meta[i]);
    if e.meta[i].deleted {
      assert e.items == before + after;
    } else {
      assert e.items == before + [e.meta[i].value] + after;
      DropMiddle(before, e.meta[i].value, after);
    }
  }

  /** Overwriting record `i` by a record with the same deletion flag rewrites
      its slot of the visible array if it is live. */
  lemma OverwriteMaterialised(e: Entry, i: nat, rec': ElemRec)
    requires Materialised(e) && i < |e.meta| && rec'.deleted == e.meta[i].deleted
    ensures var v := |Live(e.meta[..i])|;
            (!e.meta[i].deleted ==> v < |e.items|)
            && Materialised(ListEntry(if e.meta[i].deleted then e.items else e.items[v := rec'.value],
                                      e.meta[i := rec']))
  {
    LiveSplit(e.meta, i);
    UpdateLive(e.meta, i, rec');
    LiveSingle(e.meta[i]);
    LiveSingle(rec');
    if !e.meta[i].deleted {
      ReplaceMiddle(Live(e.meta[..i]), e.meta[i].value, rec'.value, Live(e.meta[i + 1..]));
    }
  }

  lemma DropMiddle<T>(a: seq<T>, x: T, b: seq<T>)
    ensures (a + [x] + b)[..|a|] + (a + [x] + b)[|a| + 1..] == a + b
  {
    assert (a + [x] + b)[..|a|] == a;
    assert (a + [x] + b)[|a| + 1..] == b;
  }

  lemma ReplaceMiddle<T>(a: seq<T>, x: T, y: T, b: seq<T>)
    ensures (a + [x] + b)[|a| := y] == a + [y] + b
  {
  }

  lemma LiveSingle(rec: ElemRec)
    ensures Live([rec]) == if rec.deleted then [] else [rec.value]
  {
    assert [rec][..0] == [];
  }

  lemma SplitAt<T>(s: seq<T>, i: nat)
    requires i < |s|
    ensures s == s[..i] + [s[i]] + s[i + 1..]
  {
  }

  lemma LiveConcat3(a: seq<ElemRec>, x: ElemRec, b: seq<ElemRec>)
    ensures Live(a + [x] + b) == Live(a) + Live([x]) + Live(b)
  {
    LiveAppend(a + [x], b);
    LiveAppend(a, [x]);
  }

  /** The live values split around record `i`. */
  lemma LiveSplit(meta: seq<ElemRec>, i: nat)
    requires i < |meta|
    ensures Live(meta) == Live(meta[..i]) + Live([meta[i]]) + Live(meta[i + 1..])
  {
    SplitAt(meta, i);
    LiveConcat3(meta[..i], meta[i], meta[i + 1..]);
  }

  /** Replacing record `i` by `rec` replaces only that record's slot in the live values. */
  lemma UpdateLive(meta: seq<ElemRec>, i: nat, rec: ElemRec)
    requires i < |meta|
    ensures Live(meta[i := rec]) == Live(meta[..i]) + Live([rec]) + Live(meta[i + 1..])
  {
    var m' := meta[i := rec];
    LiveSplit(m', i);
    assert m'[..i] == meta[..i];
    assert m'[i + 1..] == meta[i + 1..];
  }

  // ---------------------------------------------------------------------------
  // Properties

  /** Deleting an element a second time changes nothing. */
  lemma DeleteIdempotent(e: Entry, key: string, id1: string, id2: string)
    requires Materialised(e)
    requires ApplyListUpdate(e, key, id1, true, Prim(Undefined)).Success?
    ensures var once := ApplyListUpdate(e, key, id1, true, Prim(Undefined)).value;
            ApplyListUpdate(once, key, id2, true, Prim(Undefined)) == Success(once)
  {
    var once := ApplyListUpdate(e, key, id1, true, Prim(Undefined)).value;
    var i, v := FindListElement(e.meta, key).value.0, FindListElement(e.meta, key).value.1;
    assert FirstWith(once.meta, key, i);
    assert once.meta[i].deleted;
    assert once.meta[i := once.meta[i].(deleted := true)] == once.meta;
  }
}
