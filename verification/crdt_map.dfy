/**
  Map objects of the CRDT engine: last-writer-wins per field
  (packages/shared/crdt.ts:126-138).

  Each field remembers the op id that last won it. An incoming op takes the
  field only when the field has no winner yet or the winner sorts before the
  incoming id; a delete still records itself as the winner.
 */
module CrdtMap {
  import opened Wrappers
  import opened OpIds
  import opened CrdtTypes

  /** The incoming op `id` takes field `key` of map entry `e`: no recorded
      winner, or the recorded winner sorts before `id`. */
  predicate Wins(e: Entry, key: string, id: string)
    requires e.MapEntry?
  {
    key !in e.winners || CompareOpIds(e.winners[key], id) == Some(true)
  }

  /** The map branch of `applyOp`. `isDel` is a `del` op; `value` is what a
      `set` or `make*` op stores. */
  function ApplyMapOp(e: Entry, key: string, id: string, isDel: bool, value: Value): (r: Result<Entry, Error>)
    requires e.MapEntry?
    ensures r.Failure? <==> key in e.winners && CompareOpIds(e.winners[key], id).None?
    ensures r.Failure? ==> r.error == MalformedOpId
    ensures r.Success? ==> r.value.MapEntry?
    ensures r.Success? && !Wins(e, key, id) ==> r.value == e
    ensures r.Success? && Wins(e, key, id) ==> key in r.value.winners && r.value.winners[key] == id
    ensures r.Success? && Wins(e, key, id) && isDel ==> key !in r.value.fields
    ensures r.Success? && Wins(e, key, id) && !isDel ==> key in r.value.fields && r.value.fields[key] == value
    ensures r.Success? ==> SameOutside(e, r.value, key)
    ensures r.Success? && key in e.winners ==>
              && key in r.value.winners
              && (r.value.winners[key] == e.winners[key] || CompareOpIds(e.winners[key], r.value.winners[key]) == Some(true))
  {
    if key in e.winners && CompareOpIds(e.winners[key], id).None? then Failure(MalformedOpId)
    else if !Wins(e, key, id) then Success(e)
    else if isDel then Success(MapEntry(e.fields - {key}, e.winners[key := id]))
    else Success(MapEntry(e.fields[key := value], e.winners[key := id]))
  }

  // ---------------------------------------------------------------------------
  // No resurrection

  /** Once a delete has won a field, a `set` with an older id arriving later
      leaves the field absent. */
  lemma DeleteNotResurrected(e: Entry, key: string, d: OpId, s: OpId, value: Value)
    requires e.MapEntry?
    requires ValidActor(d.actor) && ValidActor(s.actor) && Less(s, d)
    requires ApplyMapOp(e, key, FormatOpId(d), true, Prim(Undefined)).Success?
    requires Wins(e, key, FormatOpId(d))
    ensures var e1 := ApplyMapOp(e, key, FormatOpId(d), true, Prim(Undefined)).value;
            ApplyMapOp(e1, key, FormatOpId(s), false, value) == Success(e1) && key !in e1.fields
  {
    CompareFormatted(d, s);
    LessIsStrictTotalOrder(d, s, d);
  }

  // ---------------------------------------------------------------------------
  // Order independence

  /** One write to a field, as produced by an op with parsed id `id`. */
  datatype FieldWrite = FieldWrite(id: OpId, isDel: bool, value: Value)

  /** Applying writes to field `key` one after the other, stopping at the first throw. */
  function ApplyWrites(e: Entry, key: string, ws: seq<FieldWrite>): Result<Entry, Error>
    requires e.MapEntry?
    decreases |ws|
  {
    if |ws| == 0 then Success(e)
    else match ApplyMapOp(e, key, FormatOpId(ws[0].id), ws[0].isDel, ws[0].value)
      case Failure(err) => Failure(err)
      case Success(e1) => ApplyWrites(e1, key, ws[1..])
  }

  /** Writes that every comparison can rank: valid actors, pairwise distinct ids. */
  predicate Rankable(ws: seq<FieldWrite>)
  {
    (forall i :: 0 <= i < |ws| ==> ValidActor(ws[i].id.actor))
    && (forall i, j :: 0 <= i < j < |ws| ==> ws[i].id != ws[j].id)
  }

  /** `w` is the write with the greatest id among `ws`. */
  predicate IsLatest(ws: seq<FieldWrite>, w: FieldWrite)
  {
    w in ws && forall i :: 0 <= i < |ws| ==> ws[i] == w || Less(ws[i].id, w.id)
  }

  /** The state of field `key` after write `w` has won it. */
  predicate FieldHolds(e: Entry, key: string, w: FieldWrite)
  {
    e.MapEntry? && key in e.winners && e.winners[key] == FormatOpId(w.id)
    && (if w.isDel then key !in e.fields else key in e.fields && e.fields[key] == w.value)
  }

  /** Other fields are as in `e`. */
  ghost predicate SameOutside(e: Entry, e': Entry, key: string)
  {
    e.MapEntry? && e'.MapEntry?
    && (forall k :: k != key ==> (k in e'.fields <==> k in e.fields) && (k in e.fields ==> e'.fields[k] == e.fields[k]))
    && (forall k :: k != key ==> (k in e'.winners <==> k in e.winners) && (k in e.winners ==> e'.winners[k] == e.winners[k]))
  }

  /** Last-writer-wins: whatever the delivery order, once a fresh field has
      received rankable writes it is held by the write with the greatest id,
      and no other field has changed. */
  lemma {:induction false} WritesConverge(e: Entry, key: string, ws: seq<FieldWrite>)
    requires e.MapEntry? && key !in e.winners
    requires |ws| > 0 && Rankable(ws)
    ensures ApplyWrites(e, key, ws).Success?
    ensures forall w | IsLatest(ws, w) :: FieldHolds(ApplyWrites(e, key, ws).value, key, w)
    ensures SameOutside(e, ApplyWrites(e, key, ws).value, key)
    decreases |ws|
  {
    var w0 := ws[0];
    var e1 := ApplyMapOp(e, key, FormatOpId(w0.id), w0.isDel, w0.value).value;
    assert FieldHolds(e1, key, w0);
    assert [w0] + ws[1..] == ws;
    WritesFrom(e1, key, w0, ws[1..]);
    var r := ApplyWrites(e1, key, ws[1..]).value;
    forall w | IsLatest(ws, w)
      ensures FieldHolds(r, key, w)
    {
      LatestOfCons(ws, w);
    }
  }

  /** Last-writer-wins on a field already held: when `cur` holds field `key`
      and rankable writes arrive, in whatever order, the field ends held by
      the greatest of `cur` and the writes, and no other field has changed.
      This is the induction behind `WritesConverge` too. */
  lemma {:induction false} WritesFrom(e: Entry, key: string, cur: FieldWrite, ws: seq<FieldWrite>)
    requires FieldHolds(e, key, cur)
    requires Rankable([cur] + ws)
    ensures ApplyWrites(e, key, ws).Success?
    ensures forall w | IsLatest([cur] + ws, w) :: FieldHolds(ApplyWrites(e, key, ws).value, key, w)
    ensures SameOutside(e, ApplyWrites(e, key, ws).value, key)
    decreases |ws|
  {
    var all := [cur] + ws;
    if |ws| == 0 {
      forall w | IsLatest(all, w) ensures w == cur { assert all == [cur]; }
    } else {
      var w := ws[0];
      assert all[1] == w && all[0] == cur;
      var next := if Less(cur.id, w.id) then w else cur;
      assert [w] + ws[1..] == ws;
      RankableShift(cur, w, ws[1..], next);
      var e1 := StepHolds(e, key, cur, w);
      assert all == [cur, w] + ws[1..];
      WritesFrom(e1, key, next, ws[1..]);
      forall x | IsLatest(all, x)
        ensures IsLatest([next] + ws[1..], x)
      {
        LatestShift(cur, w, ws[1..], next, x);
      }
    }
  }

  /** One more write to a field held by `cur`: the field is then held by the
      later of the two. */
  lemma StepHolds(e: Entry, key: string, cur: FieldWrite, w: FieldWrite) returns (e1: Entry)
    requires FieldHolds(e, key, cur)
    requires ValidActor(cur.id.actor) && ValidActor(w.id.actor) && cur.id != w.id
    ensures ApplyMapOp(e, key, FormatOpId(w.id), w.isDel, w.value) == Success(e1)
    ensures FieldHolds(e1, key, if Less(cur.id, w.id) then w else cur)
    ensures SameOutside(e, e1, key)
  {
    CompareFormatted(cur.id, w.id);
    LessIsStrictTotalOrder(cur.id, w.id, cur.id);
    e1 := ApplyMapOp(e, key, FormatOpId(w.id), w.isDel, w.value).value;
  }

  lemma RankableShift(cur: FieldWrite, w: FieldWrite, rest: seq<FieldWrite>, next: FieldWrite)
    requires Rankable([cur] + ([w] + rest))
    requires next == cur || next == w
    ensures ValidActor(cur.id.actor) && ValidActor(w.id.actor) && cur.id != w.id
    ensures Rankable([next] + rest)
  {
    var all := [cur] + ([w] + rest);
    assert all[0] == cur && all[1] == w;
    var nr := [next] + rest;
    forall i | 0 <= i < |nr| ensures ValidActor(nr[i].id.actor) {
      if i > 0 { assert nr[i] == all[i + 1]; }
    }
    forall i, j | 0 <= i < j < |nr| ensures nr[i].id != nr[j].id {
      assert nr[j] == all[j + 1];
      if i > 0 { assert nr[i] == all[i + 1]; }
      else if next == cur { assert nr[i] == all[0]; }
      else { assert nr[i] == all[1]; }
    }
  }

  lemma LatestShift(cur: FieldWrite, w: FieldWrite, rest: seq<FieldWrite>, next: FieldWrite, x: FieldWrite)
    requires Rankable([cur, w] + rest)
    requires next == if Less(cur.id, w.id) then w else cur
    requires IsLatest([cur, w] + rest, x)
    ensures IsLatest([next] + rest, x)
  {
    var all := [cur, w] + rest;
    var nr := [next] + rest;
    assert all[0] == cur && all[1] == w;
    LessIsStrictTotalOrder(cur.id, w.id, x.id);
    LessIsStrictTotalOrder(w.id, cur.id, x.id);
    assert x == next || Less(next.id, x.id);
    assert x in nr by {
      if x != next {
        var k :| 0 <= k < |all| && all[k] == x;
        if k == 0 || k == 1 {
          LessIsStrictTotalOrder(x.id, x.id, x.id);
          assert false;
        }
        assert nr[k - 1] == x;
      }
    }
    forall i | 0 <= i < |nr| ensures nr[i] == x || Less(nr[i].id, x.id) {
      if i > 0 { assert nr[i] == all[i + 1]; }
    }
  }

  lemma LatestOfCons(ws: seq<FieldWrite>, w: FieldWrite)
    requires |ws| > 0 && IsLatest(ws, w)
    ensures IsLatest([ws[0]] + ws[1..], w)
  {
    assert [ws[0]] + ws[1..] == ws;
  }

  /** Two entries that agree with `e` outside `key` and are both held by `w`
      at `key` are equal. */
  lemma HeldEntriesEqual(e: Entry, r1: Entry, r2: Entry, key: string, w: FieldWrite)
    requires SameOutside(e, r1, key) && SameOutside(e, r2, key)
    requires FieldHolds(r1, key, w) && FieldHolds(r2, key, w)
    ensures r1 == r2
  {
    assert r1.fields.Keys == r2.fields.Keys;
    assert r1.winners.Keys == r2.winners.Keys;
    assert r1.fields == r2.fields;
    assert r1.winners == r2.winners;
  }

  /** Two concurrent writes to one fresh field end in the same entry in either order. */
  lemma TwoWritesCommute(e: Entry, key: string, a: FieldWrite, b: FieldWrite)
    requires e.MapEntry? && key !in e.winners
    requires Rankable([a, b])
    ensures ApplyWrites(e, key, [a, b]) == ApplyWrites(e, key, [b, a])
  {
    var ab, ba := [a, b], [b, a];
    assert ab[0] == a && ab[1] == b && ba[0] == b && ba[1] == a;
    assert Rankable(ba);
    WritesConverge(e, key, ab);
    WritesConverge(e, key, ba);
    LessIsStrictTotalOrder(a.id, b.id, a.id);
    var latest := if Less(a.id, b.id) then b else a;
    Latest2(a, b, latest);
    Latest2(b, a, latest);
    HeldEntriesEqual(e, ApplyWrites(e, key, [a, b]).value, ApplyWrites(e, key, [b, a]).value, key, latest);
  }

  /** Two concurrent writes to a field that an earlier write `c` already holds
      end in the same entry in either order. */
  lemma HeldTwoWritesCommute(e: Entry, key: string, c: FieldWrite, a: FieldWrite, b: FieldWrite)
    requires FieldHolds(e, key, c)
    requires Rankable([c, a, b])
    ensures ApplyWrites(e, key, [a, b]) == ApplyWrites(e, key, [b, a])
  {
    RankableSwap(c, a, b);
    assert [c] + [a, b] == [c, a, b] && [c] + [b, a] == [c, b, a];
    WritesFrom(e, key, c, [a, b]);
    WritesFrom(e, key, c, [b, a]);
    var latest := LatestOfThree(c, a, b);
    HeldEntriesEqual(e, ApplyWrites(e, key, [a, b]).value, ApplyWrites(e, key, [b, a]).value, key, latest);
  }

  lemma RankableSwap(c: FieldWrite, a: FieldWrite, b: FieldWrite)
    requires Rankable([c, a, b])
    ensures Rankable([c, b, a])
    ensures ValidActor(a.id.actor) && ValidActor(b.id.actor) && ValidActor(c.id.actor)
    ensures a.id != b.id && a.id != c.id && b.id != c.id
  {
    var s, t := [c, a, b], [c, b, a];
    assert s[0] == c && s[1] == a && s[2] == b;
    assert t[0] == c && t[1] == b && t[2] == a;
  }

  /** The greatest of three writes with distinct ids, latest in either order of the last two. */
  lemma LatestOfThree(c: FieldWrite, a: FieldWrite, b: FieldWrite) returns (w: FieldWrite)
    requires a.id != b.id && a.id != c.id && b.id != c.id
    ensures IsLatest([c, a, b], w) && IsLatest([c, b, a], w)
  {
    LessIsStrictTotalOrder(a.id, b.id, c.id);
    LessIsStrictTotalOrder(b.id, c.id, a.id);
    LessIsStrictTotalOrder(c.id, a.id, b.id);
    LessIsStrictTotalOrder(a.id, c.id, b.id);
    LessIsStrictTotalOrder(b.id, a.id, c.id);
    LessIsStrictTotalOrder(c.id, b.id, a.id);
    var ab := if Less(a.id, b.id) then b else a;
    w := if Less(c.id, ab.id) then ab else c;
    Latest3(c, a, b, w);
    Latest3(c, b, a, w);
  }

  lemma Latest2(x: FieldWrite, y: FieldWrite, w: FieldWrite)
    requires w == x || w == y
    requires (x == w || Less(x.id, w.id)) && (y == w || Less(y.id, w.id))
    ensures IsLatest([x, y], w)
  {
    var s := [x, y];
    assert s[0] == x && s[1] == y;
  }

  lemma Latest3(x: FieldWrite, y: FieldWrite, z: FieldWrite, w: FieldWrite)
    requires w == x || w == y || w == z
    requires (x == w || Less(x.id, w.id)) && (y == w || Less(y.id, w.id)) && (z == w || Less(z.id, w.id))
    ensures IsLatest([x, y, z], w)
  {
    var s := [x, y, z];
    assert s[0] == x && s[1] == y && s[2] == z;
  }
}
