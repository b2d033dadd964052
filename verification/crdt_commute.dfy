/**
  Concurrent list inserts commute (packages/shared/crdt.ts:144-166): two
  inserts after the same predecessor, applied in either order, leave the same
  metadata and the same visible array. This is what makes the replicas of the
  reference scenario agree on `['baz', 'bar']`.

  The argument needs only that every id involved parses, so that no
  comparison throws; it does not depend on how the existing elements got there.
 */
module CrdtCommute {
  import opened Wrappers
  import opened OpIds
  import opened CrdtTypes
  import opened CrdtList

  /** Every element id of the list parses as `counter@actor`. */
  predicate IdsParse(meta: seq<ElemRec>)
  {
    forall k {:trigger WellFormed(meta[k].elemId)} :: 0 <= k < |meta| ==> WellFormed(meta[k].elemId)
  }

  /** The parsed element ids, in list order. */
  function Ids(meta: seq<ElemRec>): (ids: seq<OpId>)
    requires IdsParse(meta)
    ensures |ids| == |meta|
  {
    seq(|meta|, k requires 0 <= k < |meta| => assert WellFormed(meta[k].elemId); ParseOpId(meta[k].elemId).value)
  }

  /** Each parsed id is what its record's id parses to. */
  lemma IdsIndex(meta: seq<ElemRec>, k: nat)
    requires IdsParse(meta) && k < |meta|
    ensures WellFormed(meta[k].elemId) && Some(Ids(meta)[k]) == ParseOpId(meta[k].elemId)
  {
    assert WellFormed(meta[k].elemId);
  }

  /** Where the scan for an insert with key `key` starts. */
  predicate StartsAt(meta: seq<ElemRec>, key: string, start: nat)
  {
    if key == HeadKey then start == 0 else start >= 1 && FirstWith(meta, key, start - 1)
  }

  /** The position an insert of `x` reaches from `k` on: past every id
      greater than `x`, before the first one that is not. */
  function Place(ids: seq<OpId>, x: OpId, k: nat): (q: nat)
    requires k <= |ids|
    ensures k <= q <= |ids|
    ensures forall j :: k <= j < q ==> Less(x, ids[j])
    ensures q < |ids| ==> !Less(x, ids[q])
    decreases |ids| - k
  {
    if k == |ids| then k
    else if Less(x, ids[k]) then Place(ids, x, k + 1)
    else k
  }

  /** `Place` is the first position from `k` on whose id is not greater. */
  lemma {:induction false} PlaceFirst(ids: seq<OpId>, x: OpId, k: nat, q: nat)
    requires k <= q <= |ids|
    requires forall j :: k <= j < q ==> Less(x, ids[j])
    requires q < |ids| ==> !Less(x, ids[q])
    ensures Place(ids, x, k) == q
    decreases q - k
  {
    if k < q {
      PlaceFirst(ids, x, k + 1, q);
    }
  }

  // ---------------------------------------------------------------------------
  // From string comparisons to the order on ids

  lemma Rank(x: OpId, s: string)
    requires ValidActor(x.actor) && WellFormed(s)
    ensures CompareOpIds(FormatOpId(x), s) == Some(Less(x, ParseOpId(s).value))
  {
    ParseFormat(x);
  }

  lemma PlacedOf(meta: seq<ElemRec>, x: OpId, start: nat)
    requires start <= |meta| && IdsParse(meta) && ValidActor(x.actor)
    ensures PlacedAt(meta, FormatOpId(x), start, Place(Ids(meta), x, start))
  {
    var ids := Ids(meta);
    var q := Place(ids, x, start);
    forall k | start <= k < q
      ensures CompareOpIds(FormatOpId(x), meta[k].elemId) == Some(true)
    {
      IdsIndex(meta, k);
      Rank(x, meta[k].elemId);
      assert Less(x, ids[k]);
    }
    if q < |meta| {
      IdsIndex(meta, q);
      Rank(x, meta[q].elemId);
    }
  }

  /** The placement from a given start is unique. */
  lemma PlacedUnique(meta: seq<ElemRec>, id: string, start: nat, q1: nat, q2: nat)
    requires PlacedAt(meta, id, start, q1) && PlacedAt(meta, id, start, q2)
    ensures q1 == q2
  {
  }

  lemma StartUnique(meta: seq<ElemRec>, key: string, s1: nat, s2: nat)
    requires StartsAt(meta, key, s1) && StartsAt(meta, key, s2)
    ensures s1 == s2
  {
  }

  lemma StartExists(meta: seq<ElemRec>, key: string) returns (start: nat)
    requires key == HeadKey || key in ElemIds(meta)
    ensures start <= |meta| && StartsAt(meta, key, start)
  {
    if key == HeadKey {
      start := 0;
    } else {
      match FindListElement(meta, key)
      case Success((i, _)) =>
        start := i + 1;
    }
  }

  // ---------------------------------------------------------------------------
  // Splices

  /** `s` with `x` inserted at position `q`. */
  function Splice<T>(s: seq<T>, q: nat, x: T): (t: seq<T>)
    requires q <= |s|
    ensures |t| == |s| + 1 && t[q] == x
    ensures forall j {:trigger t[j]} :: 0 <= j < q ==> t[j] == s[j]
    ensures forall j {:trigger t[j]} :: q < j < |t| ==> t[j] == s[j - 1]
  {
    s[..q] + [x] + s[q..]
  }

  /** The list object with metadata `meta` and its materialised visible array. */
  function AsList(meta: seq<ElemRec>): (e: Entry)
    ensures Materialised(e) && e.meta == meta
  {
    ListEntry(Live(meta), meta)
  }

  /** Both orders of two ordered inserts, as one metadata sequence: `hi`
      lands before `lo` when both would land at the same place. */
  function Merged<T>(meta: seq<T>, qh: nat, ql: nat, rh: T, rl: T): seq<T>
    requires qh <= ql <= |meta|
  {
    meta[..qh] + [rh] + meta[qh..ql] + [rl] + meta[ql..]
  }

  /** Splicing `rl` at `ql`, then `rh` at `qh <= ql`, gives the merge. */
  lemma MergedBefore<T>(s: seq<T>, qh: nat, ql: nat, rh: T, rl: T)
    requires qh <= ql <= |s|
    ensures Merged(s, qh, ql, rh, rl) == Splice(Splice(s, ql, rl), qh, rh)
  {
    var t := Splice(s, ql, rl);
    assert t[..qh] == s[..qh];
    assert t[qh..] == s[qh..ql] + [rl] + s[ql..];
  }

  /** Splicing `rh` at `qh`, then `rl` at `ql + 1`, gives the same merge. */
  lemma MergedAfter<T>(s: seq<T>, qh: nat, ql: nat, rh: T, rl: T)
    requires qh <= ql <= |s|
    ensures Merged(s, qh, ql, rh, rl) == Splice(Splice(s, qh, rh), ql + 1, rl)
  {
    var t := Splice(s, qh, rh);
    assert t[..ql + 1] == s[..qh] + [rh] + s[qh..ql];
    assert t[ql + 1..] == s[ql..];
  }

  /** A record whose id parses keeps every id parseable. */
  lemma SpliceParses(meta: seq<ElemRec>, q: nat, x: OpId, v: Value)
    requires IdsParse(meta) && ValidActor(x.actor) && q <= |meta|
    ensures IdsParse(Splice(meta, q, NewRec(FormatOpId(x), v)))
  {
    var m := Splice(meta, q, NewRec(FormatOpId(x), v));
    ParseFormat(x);
    forall k | 0 <= k < |m|
      ensures WellFormed(m[k].elemId)
    {
      if k < q {
        assert WellFormed(meta[k].elemId);
      } else if k > q {
        assert WellFormed(meta[k - 1].elemId);
      }
    }
  }

  /** Its parsed id is spliced into the parsed ids at the same place. */
  lemma SpliceIds(meta: seq<ElemRec>, q: nat, x: OpId, v: Value)
    requires IdsParse(meta) && ValidActor(x.actor) && q <= |meta|
    requires IdsParse(Splice(meta, q, NewRec(FormatOpId(x), v)))
    ensures Ids(Splice(meta, q, NewRec(FormatOpId(x), v))) == Splice(Ids(meta), q, x)
  {
    var m := Splice(meta, q, NewRec(FormatOpId(x), v));
    var ids := Ids(meta);
    ParseFormat(x);
    forall k | 0 <= k < |m|
      ensures Ids(m)[k] == Splice(ids, q, x)[k]
    {
      if k < q {
        IdsIndex(meta, k);
      } else if k > q {
        IdsIndex(meta, k - 1);
      }
      IdsIndex(m, k);
    }
  }

  /** A record spliced in at or after the start keeps the scan's start. */
  lemma SpliceStart(meta: seq<ElemRec>, key: string, start: nat, q: nat, r: ElemRec)
    requires start <= q <= |meta| && StartsAt(meta, key, start)
    ensures StartsAt(Splice(meta, q, r), key, start)
  {
  }

  /** All three, for one insert of `x` at `q`. */
  lemma SpliceKeeps(meta: seq<ElemRec>, key: string, start: nat, q: nat, x: OpId, v: Value)
    requires IdsParse(meta) && ValidActor(x.actor) && start <= q <= |meta| && StartsAt(meta, key, start)
    ensures var m := Splice(meta, q, NewRec(FormatOpId(x), v));
            && IdsParse(m) && StartsAt(m, key, start) && start <= |m|
            && Ids(m) == Splice(Ids(meta), q, x)
  {
    SpliceParses(meta, q, x, v);
    SpliceIds(meta, q, x, v);
    SpliceStart(meta, key, start, q, NewRec(FormatOpId(x), v));
  }

  // ---------------------------------------------------------------------------
  // One insert

  /** With every id parseable, no comparison of the scan fails. */
  lemma ScanSucceeds(meta: seq<ElemRec>, x: OpId, start: nat, visible: nat)
    requires start <= |meta| && visible == |Live(meta[..start])| && IdsParse(meta) && ValidActor(x.actor)
    ensures SkipGreater(meta, FormatOpId(x), start, visible).Some?
  {
    forall k | start <= k < |meta|
      ensures CompareOpIds(FormatOpId(x), meta[k].elemId).Some?
    {
      Rank(x, meta[k].elemId);
    }
  }

  /** With every id parseable, an insert after a present key succeeds, and its
      result is the record spliced in at its placement from the start. */
  lemma InsertShape(meta: seq<ElemRec>, key: string, x: OpId, v: Value, start: nat, q: nat, m: seq<ElemRec>)
    requires IdsParse(meta) && ValidActor(x.actor)
    requires start <= |meta| && StartsAt(meta, key, start)
    requires q == Place(Ids(meta), x, start)
    requires m == Splice(meta, q, NewRec(FormatOpId(x), v))
    ensures ApplyListInsert(AsList(meta), key, FormatOpId(x), v) == Success(AsList(m))
  {
    var id := FormatOpId(x);
    PlacedOf(meta, x, start);
    assert key != HeadKey ==> meta[start - 1].elemId == key;
    var s0 := InsertStart(meta, key);
    assert s0.Success?;
    StartUnique(meta, key, s0.value.0, start);
    ScanSucceeds(meta, x, start, s0.value.1);
    var skip := SkipGreater(meta, id, start, s0.value.1);
    PlacedUnique(meta, id, start, skip.value.0, q);
  }

  // ---------------------------------------------------------------------------
  // Two inserts, on the parsed ids

  /** The smaller id `lo` stops no earlier than the greater id `hi`. */
  lemma PlaceOrder(ids: seq<OpId>, lo: OpId, hi: OpId, start: nat)
    requires start <= |ids| && Less(lo, hi)
    ensures Place(ids, hi, start) <= Place(ids, lo, start)
  {
    var ql := Place(ids, lo, start);
    if ql < Place(ids, hi, start) {
      LessIsStrictTotalOrder(lo, hi, ids[ql]);
      assert false;
    }
  }

  /** Inserting `hi` after `lo` is already in lands where it would have
      landed alone. */
  lemma HiAfterLo(ids: seq<OpId>, lo: OpId, hi: OpId, start: nat)
    requires start <= |ids| && Less(lo, hi)
    ensures Place(Splice(ids, Place(ids, lo, start), lo), hi, start) == Place(ids, hi, start)
  {
    var ql := Place(ids, lo, start);
    var qh := Place(ids, hi, start);
    var m := Splice(ids, ql, lo);
    PlaceOrder(ids, lo, hi, start);
    LessIsStrictTotalOrder(lo, hi, lo);
    PlaceFirst(m, hi, start, qh);
  }

  /** Inserting `lo` after `hi` is already in lands one past where it would
      have landed alone. */
  lemma LoAfterHi(ids: seq<OpId>, lo: OpId, hi: OpId, start: nat)
    requires start <= |ids| && Less(lo, hi)
    ensures Place(Splice(ids, Place(ids, hi, start), hi), lo, start) == Place(ids, lo, start) + 1
  {
    var ql := Place(ids, lo, start);
    var qh := Place(ids, hi, start);
    var m := Splice(ids, qh, hi);
    PlaceOrder(ids, lo, hi, start);
    forall j | start <= j < ql + 1
      ensures Less(lo, m[j])
    {
      if j > qh {
        assert Less(lo, ids[j - 1]);
      }
    }
    PlaceFirst(m, lo, start, ql + 1);
  }

  // ---------------------------------------------------------------------------
  // Two inserts on the list

  /** Everything the second insert of `hi` needs about the list holding `lo`. */
  lemma HiIntoLoFacts(meta: seq<ElemRec>, key: string, lo: OpId, hi: OpId, lv: Value, start: nat)
    requires IdsParse(meta) && ValidActor(lo.actor) && Less(lo, hi)
    requires start <= |meta| && StartsAt(meta, key, start)
    ensures var ml := Splice(meta, Place(Ids(meta), lo, start), NewRec(FormatOpId(lo), lv));
            && IdsParse(ml) && StartsAt(ml, key, start) && start <= |ml|
            && Place(Ids(ml), hi, start) == Place(Ids(meta), hi, start)
  {
    var ids := Ids(meta);
    var ql := Place(ids, lo, start);
    SpliceKeeps(meta, key, start, ql, lo, lv);
    HiAfterLo(ids, lo, hi, start);
  }

  /** Everything the second insert of `lo` needs about the list holding `hi`. */
  lemma LoIntoHiFacts(meta: seq<ElemRec>, key: string, lo: OpId, hi: OpId, hv: Value, start: nat)
    requires IdsParse(meta) && ValidActor(hi.actor) && Less(lo, hi)
    requires start <= |meta| && StartsAt(meta, key, start)
    ensures var mh := Splice(meta, Place(Ids(meta), hi, start), NewRec(FormatOpId(hi), hv));
            && IdsParse(mh) && StartsAt(mh, key, start) && start <= |mh|
            && Place(Ids(mh), lo, start) == Place(Ids(meta), lo, start) + 1
  {
    var ids := Ids(meta);
    var qh := Place(ids, hi, start);
    SpliceKeeps(meta, key, start, qh, hi, hv);
    LoAfterHi(ids, lo, hi, start);
  }

  /** `lo` first, then `hi`: each lands at its own placement in the list it meets. */
  lemma LoThenHi(meta: seq<ElemRec>, key: string, lo: OpId, hi: OpId, lv: Value, hv: Value, start: nat)
    requires IdsParse(meta) && ValidActor(lo.actor) && ValidActor(hi.actor) && Less(lo, hi)
    requires start <= |meta| && StartsAt(meta, key, start)
    ensures var ml := Splice(meta, Place(Ids(meta), lo, start), NewRec(FormatOpId(lo), lv));
            && ApplyListInsert(AsList(meta), key, FormatOpId(lo), lv) == Success(AsList(ml))
            && ApplyListInsert(AsList(ml), key, FormatOpId(hi), hv)
               == Success(AsList(Splice(ml, Place(Ids(meta), hi, start), NewRec(FormatOpId(hi), hv))))
  {
    var ids := Ids(meta);
    var ql := Place(ids, lo, start);
    var qh := Place(ids, hi, start);
    var ml := Splice(meta, ql, NewRec(FormatOpId(lo), lv));
    InsertShape(meta, key, lo, lv, start, ql, ml);
    HiIntoLoFacts(meta, key, lo, hi, lv, start);
    InsertShape(ml, key, hi, hv, start, qh, Splice(ml, qh, NewRec(FormatOpId(hi), hv)));
  }

  /** `hi` first, then `lo`: `lo` lands one further on, past `hi`. */
  lemma HiThenLo(meta: seq<ElemRec>, key: string, lo: OpId, hi: OpId, lv: Value, hv: Value, start: nat)
    requires IdsParse(meta) && ValidActor(lo.actor) && ValidActor(hi.actor) && Less(lo, hi)
    requires start <= |meta| && StartsAt(meta, key, start)
    ensures var mh := Splice(meta, Place(Ids(meta), hi, start), NewRec(FormatOpId(hi), hv));
            && ApplyListInsert(AsList(meta), key, FormatOpId(hi), hv) == Success(AsList(mh))
            && IdsParse(mh) && start <= |mh|
            && ApplyListInsert(AsList(mh), key, FormatOpId(lo), lv)
               == Success(AsList(Splice(mh, Place(Ids(mh), lo, start), NewRec(FormatOpId(lo), lv))))
  {
    var ids := Ids(meta);
    var ql := Place(ids, lo, start);
    var qh := Place(ids, hi, start);
    var mh := Splice(meta, qh, NewRec(FormatOpId(hi), hv));
    InsertShape(meta, key, hi, hv, start, qh, mh);
    SpliceKeeps(meta, key, start, qh, hi, hv);
    var ql1 := Place(Ids(mh), lo, start);
    InsertShape(mh, key, lo, lv, start, ql1, Splice(mh, ql1, NewRec(FormatOpId(lo), lv)));
  }

  /** Splicing `rl` at `ql` then `rh` at `qh <= ql` is splicing `rh` first
      and `rl` one further on. */
  lemma SplicesCommute<T>(s: seq<T>, qh: nat, ql: nat, ql1: nat, rh: T, rl: T)
    requires qh <= ql <= |s| && ql1 == ql + 1
    ensures Splice(Splice(s, ql, rl), qh, rh) == Splice(Splice(s, qh, rh), ql1, rl)
  {
    MergedBefore(s, qh, ql, rh, rl);
    MergedAfter(s, qh, ql, rh, rl);
  }

  /** The commutation for ordered ids: `lo` sorts before `hi`. */
  lemma OrderedInsertsCommute(e: Entry, key: string, lo: OpId, hi: OpId, lv: Value, hv: Value, start: nat)
    requires Materialised(e) && IdsParse(e.meta) && ValidActor(lo.actor) && ValidActor(hi.actor) && Less(lo, hi)
    requires start <= |e.meta| && StartsAt(e.meta, key, start)
    ensures var el := ApplyListInsert(e, key, FormatOpId(lo), lv);
            var eh := ApplyListInsert(e, key, FormatOpId(hi), hv);
            && el.Success? && eh.Success?
            && ApplyListInsert(el.value, key, FormatOpId(hi), hv).Success?
            && ApplyListInsert(el.value, key, FormatOpId(hi), hv) == ApplyListInsert(eh.value, key, FormatOpId(lo), lv)
  {
    var ids := Ids(e.meta);
    var ql := Place(ids, lo, start);
    var qh := Place(ids, hi, start);
    var rl := NewRec(FormatOpId(lo), lv);
    var rh := NewRec(FormatOpId(hi), hv);
    var ml := Splice(e.meta, ql, rl);
    var mh := Splice(e.meta, qh, rh);
    assert qh <= ql by {
      PlaceOrder(ids, lo, hi, start);
    }
    assert IdsParse(mh) && Place(Ids(mh), lo, start) == ql + 1 by {
      LoIntoHiFacts(e.meta, key, lo, hi, hv, start);
    }
    var ql1 := Place(Ids(mh), lo, start);
    assert Splice(ml, qh, rh) == Splice(mh, ql1, rl) by {
      SplicesCommute(e.meta, qh, ql, ql1, rh, rl);
    }
    assert e == AsList(e.meta);
    assert ApplyListInsert(e, key, FormatOpId(lo), lv) == Success(AsList(ml))
        && ApplyListInsert(AsList(ml), key, FormatOpId(hi), hv) == Success(AsList(Splice(ml, qh, rh))) by {
      LoThenHi(e.meta, key, lo, hi, lv, hv, start);
    }
    assert ApplyListInsert(e, key, FormatOpId(hi), hv) == Success(AsList(mh))
        && ApplyListInsert(AsList(mh), key, FormatOpId(lo), lv) == Success(AsList(Splice(mh, ql1, rl))) by {
      HiThenLo(e.meta, key, lo, hi, lv, hv, start);
    }
  }

  /** Two inserts with distinct ids after the same key, delivered in either
      order, give the same list: metadata and visible array alike. */
  lemma InsertsCommute(e: Entry, key: string, a: OpId, b: OpId, va: Value, vb: Value)
    requires Materialised(e) && IdsParse(e.meta) && ValidActor(a.actor) && ValidActor(b.actor) && a != b
    requires key == HeadKey || key in ElemIds(e.meta)
    ensures var ea := ApplyListInsert(e, key, FormatOpId(a), va);
            var eb := ApplyListInsert(e, key, FormatOpId(b), vb);
            && ea.Success? && eb.Success?
            && ApplyListInsert(ea.value, key, FormatOpId(b), vb).Success?
            && ApplyListInsert(ea.value, key, FormatOpId(b), vb) == ApplyListInsert(eb.value, key, FormatOpId(a), va)
  {
    var start := StartExists(e.meta, key);
    LessIsStrictTotalOrder(a, b, a);
    if Less(a, b) {
      OrderedInsertsCommute(e, key, a, b, va, vb, start);
    } else {
      OrderedInsertsCommute(e, key, b, a, vb, va, start);
    }
  }
}
