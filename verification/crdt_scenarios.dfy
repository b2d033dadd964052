/**
  The convergence checks at the end of packages/shared/crdt.ts (lines
  244-293), replayed on the model op by op.

  Every intermediate document is written out in full, and each step is its own
  lemma: one for what dispatch computes on the target object, one for the
  document-level step, and one for the invariant of each state.
 */
module CrdtScenarios {
  import opened Wrappers
  import opened OpIds
  import opened CrdtTypes
  import opened CrdtList
  import opened CrdtMap
  import opened Crdt

  // ---------------------------------------------------------------------------
  // The changes of the reference scenario

  const Change1: Change := Change("1234", 1, map[], 1, [
    Op(Set, RootId, "title", false, Str("Hello")),
    Op(MakeList, RootId, "tags", false, Undefined),
    Op(Set, "2@1234", HeadKey, true, Str("foo"))])

  const Change2: Change := Change("1234", 2, map[], 4, [
    Op(Set, RootId, "title", false, Str("Hello 1")),
    Op(Set, "2@1234", "3@1234", true, Str("bar")),
    Op(Del, "2@1234", "3@1234", false, Undefined)])

  /** Concurrent with `Change2`: it depends only on the first change of "1234". */
  const Change3: Change := Change("abcd", 1, map["1234" := 1], 4, [
    Op(Set, RootId, "title", false, Str("Hello 2")),
    Op(Set, "2@1234", "3@1234", true, Str("baz"))])

  // ---------------------------------------------------------------------------
  // The changes of the todo scenario

  const Change4: Change := Change("2345", 1, map[], 1, [
    Op(MakeList, RootId, "todos", false, Undefined),
    Op(Set, "1@2345", HeadKey, true, Str("Task 1")),
    Op(Set, "1@2345", "2@2345", true, Str("Task 2"))])

  const Change5: Change := Change("2345", 2, map[], 4, [
    Op(Del, "1@2345", "2@2345", false, Undefined),
    Op(Set, "1@2345", "3@2345", true, Str("Task 3"))])

  const Change6: Change := Change("2345", 3, map[], 6, [
    Op(Del, "1@2345", "3@2345", false, Undefined),
    Op(Set, "1@2345", "5@2345", false, Str("Task 3b")),
    Op(Set, "1@2345", "5@2345", true, Str("Task 4"))])

  // ---------------------------------------------------------------------------
  // Values

  function S(s: string): Value
  {
    Prim(Str(s))
  }

  function JS(s: string): Json
  {
    JPrim(Str(s))
  }

  function Rec(id: string, s: string): ElemRec
  {
    ElemRec(id, id, false, S(s))
  }

  function Dead(r: ElemRec): ElemRec
  {
    r.(deleted := true)
  }

  // ---------------------------------------------------------------------------
  // The objects the reference scenario passes through

  const Root0: Entry := MapEntry(map[], map[])
  const Title1: Entry := MapEntry(map["title" := S("Hello")], map["title" := "1@1234"])
  const Root1: Entry := MapEntry(map["title" := S("Hello"), "tags" := Ref("2@1234")],
                                 map["title" := "1@1234", "tags" := "2@1234"])
  const Root2: Entry := MapEntry(map["title" := S("Hello 1"), "tags" := Ref("2@1234")],
                                 map["title" := "4@1234", "tags" := "2@1234"])
  const RootC: Entry := MapEntry(map["title" := S("Hello 2"), "tags" := Ref("2@1234")],
                                 map["title" := "4@abcd", "tags" := "2@1234"])

  const Empty: Entry := ListEntry([], [])
  const LFoo: Entry := ListEntry([S("foo")], [Rec("3@1234", "foo")])
  const LFooBar: Entry := ListEntry([S("foo"), S("bar")], [Rec("3@1234", "foo"), Rec("5@1234", "bar")])
  const LBar: Entry := ListEntry([S("bar")], [Dead(Rec("3@1234", "foo")), Rec("5@1234", "bar")])
  const LFooBaz: Entry := ListEntry([S("foo"), S("baz")], [Rec("3@1234", "foo"), Rec("5@abcd", "baz")])
  const LFooBazBar: Entry := ListEntry([S("foo"), S("baz"), S("bar")],
                                       [Rec("3@1234", "foo"), Rec("5@abcd", "baz"), Rec("5@1234", "bar")])
  /** The tags list both delivery orders end with. */
  const LBazBar: Entry := ListEntry([S("baz"), S("bar")],
                                    [Dead(Rec("3@1234", "foo")), Rec("5@abcd", "baz"), Rec("5@1234", "bar")])

  // The documents, each with its log already extended by the change being applied

  const Log1: map<string, seq<Change>> := map["1234" := [Change1]]
  const Log12: map<string, seq<Change>> := map["1234" := [Change1, Change2]]
  const Log13: map<string, seq<Change>> := map["1234" := [Change1], "abcd" := [Change3]]
  const LogAll: map<string, seq<Change>> := map["1234" := [Change1, Change2], "abcd" := [Change3]]

  const Start1: Doc := Doc(Log1, map[RootId := Root0])
  const Mid1a: Doc := Doc(Log1, map[RootId := Title1])
  const Mid1b: Doc := Doc(Log1, map[RootId := Root1, "2@1234" := Empty])
  const AfterChange1: Doc := Doc(Log1, map[RootId := Root1, "2@1234" := LFoo])

  const Start2: Doc := Doc(Log12, map[RootId := Root1, "2@1234" := LFoo])
  const Mid2a: Doc := Doc(Log12, map[RootId := Root2, "2@1234" := LFoo])
  const Mid2b: Doc := Doc(Log12, map[RootId := Root2, "2@1234" := LFooBar])
  const AfterChange2: Doc := Doc(Log12, map[RootId := Root2, "2@1234" := LBar])

  const Start3: Doc := Doc(LogAll, map[RootId := Root2, "2@1234" := LBar])
  const Mid3: Doc := Doc(LogAll, map[RootId := RootC, "2@1234" := LBar])
  /** The document after all three changes, in either order. */
  const Converged: Doc := Doc(LogAll, map[RootId := RootC, "2@1234" := LBazBar])

  const Start3x: Doc := Doc(Log13, map[RootId := Root1, "2@1234" := LFoo])
  const Mid3x: Doc := Doc(Log13, map[RootId := RootC, "2@1234" := LFoo])
  const AfterChange3: Doc := Doc(Log13, map[RootId := RootC, "2@1234" := LFooBaz])

  const Start2x: Doc := Doc(LogAll, map[RootId := RootC, "2@1234" := LFooBaz])
  const Mid2x: Doc := Doc(LogAll, map[RootId := RootC, "2@1234" := LFooBazBar])

  // ---------------------------------------------------------------------------
  // Generic steps

  /** A formatted id with a one-digit counter. */
  lemma Spell(n: nat, actor: string, s: string)
    requires 1 <= n <= 9 && s == [DigitChar(n)] + "@" + actor
    ensures FormatOpId(OpId(n, actor)) == s
  {
  }

  lemma OpStep(d: Doc, op: Op, opId: OpId, id: string, e: Entry, d': Doc)
    requires Wf(d) && op.obj in d.store && !op.action.IsMake() && FormatOpId(opId) == id
    requires Dispatch(d.store[op.obj], op, id) == Success(e)
    requires d' == d.(store := d.store[op.obj := e])
    ensures ApplyOp(d, op, opId) == Ok(d')
  {
  }

  lemma MakeStep(d: Doc, op: Op, opId: OpId, id: string, e: Entry, d': Doc)
    requires Wf(d) && op.obj in d.store && op.action.IsMake() && FormatOpId(opId) == id && op.obj != id
    requires Dispatch(d.store[op.obj], op, id) == Success(e)
    requires d' == d.(store := d.store[id := Empty][op.obj := e])
    ensures ApplyOp(d, op, opId) == Ok(d')
  {
  }

  lemma OpsStep(d: Doc, c: Change, i: nat, d1: Doc)
    requires Wf(d) && i < |c.ops| && ApplyOp(d, c.ops[i], OpIdAt(c, i)) == Ok(d1)
    ensures Wf(d1) && ApplyOpsFrom(d, c, i) == ApplyOpsFrom(d1, c, i + 1)
  {
  }

  lemma OpsDone(d: Doc, c: Change)
    requires Wf(d)
    ensures ApplyOpsFrom(d, c, |c.ops|) == Ok(d)
  {
  }

  /** A change with the next sequence number and met dependencies is logged,
      then its ops run. */
  lemma Admitted(d: Doc, c: Change, log: map<string, seq<Change>>)
    requires Wf(d) && c.seqNum == LogLength(d, c.actor) + 1 && DepsMet(d, c.deps)
    requires log == d.byActor[c.actor := (if c.actor in d.byActor then d.byActor[c.actor] else []) + [c]]
    ensures ApplyChange(d, c) == ApplyOpsFrom(d.(byActor := log), c, 0)
  {
  }

  // ---------------------------------------------------------------------------
  // What dispatch computes on one object

  lemma MapSetWins(e: Entry, op: Op, id: string)
    requires e.MapEntry? && !op.action.Del? && Wins(e, op.key, id)
    requires op.key in e.winners ==> CompareOpIds(e.winners[op.key], id).Some?
    ensures Dispatch(e, op, id) == Success(MapEntry(e.fields[op.key := OpValue(op, id)], e.winners[op.key := id]))
  {
  }

  lemma MapSetLoses(e: Entry, op: Op, id: string)
    requires e.MapEntry? && op.key in e.winners && CompareOpIds(e.winners[op.key], id) == Some(false)
    ensures Dispatch(e, op, id) == Success(e)
  {
  }

  lemma ListInsertDispatch(e: Entry, op: Op, id: string)
    requires Materialised(e) && op.insert && !op.action.IsMake()
    ensures Dispatch(e, op, id) == ApplyListInsert(e, op.key, id, Prim(op.value))
  {
  }

  lemma ListUpdateDispatch(e: Entry, op: Op, id: string)
    requires Materialised(e) && !op.insert && !op.action.IsMake()
    ensures Dispatch(e, op, id) == ApplyListUpdate(e, op.key, id, op.action.Del?, Prim(op.value))
  {
  }

  /** Overwriting a live record with a newer op id replaces its visible value. */
  lemma UpdateComputes(e: Entry, key: string, id: string, v: Value, i: nat, vis: nat)
    requires Materialised(e)
    requires FindListElement(e.meta, key) == Success((i, vis))
    requires !e.meta[i].deleted && CompareOpIds(e.meta[i].valueId, id) == Some(true)
    ensures vis < |e.items|
    ensures ApplyListUpdate(e, key, id, false, v)
            == Success(ListEntry(e.items[vis := v], e.meta[i := e.meta[i].(valueId := id, value := v)]))
  {
    LiveSplit(e.meta, i);
    LiveSingle(e.meta[i]);
  }

  /** Inserting at the head of an empty list. */
  lemma HeadOfEmpty(id: string, v: Value)
    ensures ApplyListInsert(Empty, HeadKey, id, v) == Success(ListEntry([v], [NewRec(id, v)]))
  {
    assert InsertStart([], HeadKey) == Success((0, 0));
    assert SkipGreater([], id, 0, 0) == Some((0, 0));
    var m: seq<ElemRec> := [];
    var it: seq<Value> := [];
    assert m[..0] + [NewRec(id, v)] + m[0..] == [NewRec(id, v)];
    assert it[..0] + [v] + it[0..] == [v];
  }

  /** Inserting after the last record appends, whatever the new id. */
  lemma AfterLast(e: Entry, key: string, id: string, v: Value)
    requires Materialised(e) && |e.meta| > 0 && key != HeadKey && FirstWith(e.meta, key, |e.meta| - 1)
    ensures ApplyListInsert(e, key, id, v) == Success(ListEntry(e.items + [v], e.meta + [NewRec(id, v)]))
  {
    var n := |e.meta|;
    assert e.meta[..n] == e.meta;
    assert InsertStart(e.meta, key) == Success((n, |e.items|));
    assert SkipGreater(e.meta, id, n, |e.items|) == Some((n, |e.items|));
    assert e.meta[..n] + [NewRec(id, v)] + e.meta[n..] == e.meta + [NewRec(id, v)];
    assert e.items[..|e.items|] + [v] + e.items[|e.items|..] == e.items + [v];
  }

  /** Deleting the first record when it is live drops the first visible value. */
  lemma DeleteFirst(e: Entry, key: string, id: string, v: Value)
    requires Materialised(e) && |e.meta| > 0 && e.meta[0].elemId == key && !e.meta[0].deleted
    ensures |e.items| > 0
    ensures ApplyListUpdate(e, key, id, true, v) == Success(ListEntry(e.items[1..], e.meta[0 := e.meta[0].(deleted := true)]))
  {
    LiveSplit(e.meta, 0);
    LiveSingle(e.meta[0]);
    assert e.meta[..0] == [];
    assert FindFrom(e.meta, key, 0, 0) == Some((0, 0));
    assert e.items[..0] + e.items[1..] == e.items[1..];
  }

  /** Two actors compare as JavaScript strings: "1234" sorts before "abcd". */
  lemma ActorsOrdered()
    ensures ValidActor("1234") && ValidActor("abcd") && ValidActor("2345")
    ensures StrLess("1234", "abcd") && !StrLess("abcd", "1234")
  {
  }

  lemma Rank1234a()
    ensures CompareOpIds("1@1234", "4@1234") == Some(true)
  {
    ActorsOrdered();
    Spell(1, "1234", "1@1234");
    Spell(4, "1234", "4@1234");
    CompareFormatted(OpId(1, "1234"), OpId(4, "1234"));
  }

  lemma RankTitle()
    ensures CompareOpIds("4@1234", "4@abcd") == Some(true)
  {
    ActorsOrdered();
    Spell(4, "1234", "4@1234");
    Spell(4, "abcd", "4@abcd");
    CompareFormatted(OpId(4, "1234"), OpId(4, "abcd"));
  }

  lemma RankTitleEarly()
    ensures CompareOpIds("1@1234", "4@abcd") == Some(true)
  {
    ActorsOrdered();
    Spell(1, "1234", "1@1234");
    Spell(4, "abcd", "4@abcd");
    CompareFormatted(OpId(1, "1234"), OpId(4, "abcd"));
  }

  lemma RankTitleLate()
    ensures CompareOpIds("4@abcd", "4@1234") == Some(false)
  {
    ActorsOrdered();
    Spell(4, "abcd", "4@abcd");
    Spell(4, "1234", "4@1234");
    CompareFormatted(OpId(4, "abcd"), OpId(4, "1234"));
  }

  lemma RankBazBar()
    ensures CompareOpIds("5@abcd", "5@1234") == Some(false)
  {
    ActorsOrdered();
    Spell(5, "abcd", "5@abcd");
    Spell(5, "1234", "5@1234");
    CompareFormatted(OpId(5, "abcd"), OpId(5, "1234"));
  }

  lemma RankBarBaz()
    ensures CompareOpIds("5@1234", "5@abcd") == Some(true)
  {
    ActorsOrdered();
    Spell(5, "1234", "5@1234");
    Spell(5, "abcd", "5@abcd");
    CompareFormatted(OpId(5, "1234"), OpId(5, "abcd"));
  }

  lemma RankTask()
    ensures CompareOpIds("5@2345", "7@2345") == Some(true)
  {
    ActorsOrdered();
    Spell(5, "2345", "5@2345");
    Spell(7, "2345", "7@2345");
    CompareFormatted(OpId(5, "2345"), OpId(7, "2345"));
  }

  // ---------------------------------------------------------------------------
  // The lists of the reference scenario are materialised

  lemma MatFoo()
    ensures Materialised(LFoo)
  {
    LiveSingle(Rec("3@1234", "foo"));
  }

  lemma Mat2(a: ElemRec, b: ElemRec)
    ensures Live([a, b]) == Live([a]) + Live([b])
  {
    assert [a, b][..1] == [a];
  }

  lemma Mat3(a: ElemRec, b: ElemRec, c: ElemRec)
    ensures Live([a, b, c]) == Live([a]) + Live([b]) + Live([c])
  {
    assert [a, b, c][..2] == [a, b];
    Mat2(a, b);
  }

  lemma MatFooBar()
    ensures Materialised(LFooBar)
  {
    Mat2(Rec("3@1234", "foo"), Rec("5@1234", "bar"));
    LiveSingle(Rec("3@1234", "foo"));
    LiveSingle(Rec("5@1234", "bar"));
  }

  lemma MatBar()
    ensures Materialised(LBar)
  {
    Mat2(Dead(Rec("3@1234", "foo")), Rec("5@1234", "bar"));
    LiveSingle(Dead(Rec("3@1234", "foo")));
    LiveSingle(Rec("5@1234", "bar"));
  }

  lemma MatFooBaz()
    ensures Materialised(LFooBaz)
  {
    Mat2(Rec("3@1234", "foo"), Rec("5@abcd", "baz"));
    LiveSingle(Rec("3@1234", "foo"));
    LiveSingle(Rec("5@abcd", "baz"));
  }

  lemma MatFooBazBar()
    ensures Materialised(LFooBazBar)
  {
    Mat3(Rec("3@1234", "foo"), Rec("5@abcd", "baz"), Rec("5@1234", "bar"));
    LiveSingle(Rec("3@1234", "foo"));
    LiveSingle(Rec("5@abcd", "baz"));
    LiveSingle(Rec("5@1234", "bar"));
  }

  lemma MatBazBar()
    ensures Materialised(LBazBar)
  {
    Mat3(Dead(Rec("3@1234", "foo")), Rec("5@abcd", "baz"), Rec("5@1234", "bar"));
    LiveSingle(Dead(Rec("3@1234", "foo")));
    LiveSingle(Rec("5@abcd", "baz"));
    LiveSingle(Rec("5@1234", "bar"));
  }

  /** A document whose root is a map and whose only other object is a materialised list. */
  lemma WfTwo(log: map<string, seq<Change>>, root: Entry, list: string, l: Entry)
    requires root.MapEntry? && Materialised(l) && list != RootId
    ensures Wf(Doc(log, map[RootId := root, list := l]))
  {
  }

  lemma WfOne(log: map<string, seq<Change>>, root: Entry)
    requires root.MapEntry?
    ensures Wf(Doc(log, map[RootId := root]))
  {
  }

  /** Overwriting the first of two distinct keys. */
  lemma SetFirst<V>(k1: string, k2: string, a: V, b: V, c: V)
    requires k1 != k2
    ensures map[k1 := a, k2 := b][k1 := c] == map[k1 := c, k2 := b]
  {
  }

  /** Replacing the root of a two-object document. */
  lemma SetRoot(log: map<string, seq<Change>>, root: Entry, root': Entry, k: string, l: Entry)
    requires k != RootId
    ensures var d := Doc(log, map[RootId := root, k := l]);
            d.store[RootId] == root && d.(store := d.store[RootId := root']) == Doc(log, map[RootId := root', k := l])
  {
  }

  /** Replacing the list of a two-object document. */
  lemma SetList(log: map<string, seq<Change>>, root: Entry, k: string, l: Entry, l': Entry)
    requires k != RootId
    ensures var d := Doc(log, map[RootId := root, k := l]);
            d.store[k] == l && d.(store := d.store[k := l']) == Doc(log, map[RootId := root, k := l'])
  {
  }

  lemma NotRoot1234()
    ensures "2@1234" != RootId
  {
    assert "2@1234"[0] != RootId[0];
  }

  // ---------------------------------------------------------------------------
  // Change 1 from the empty document

  lemma Change1Dispatch0()
    ensures Dispatch(Root0, Change1.ops[0], "1@1234") == Success(Title1)
  {
    MapSetWins(Root0, Change1.ops[0], "1@1234");
  }

  lemma Change1Op0()
    ensures Wf(Start1)
    ensures ApplyOp(Start1, Change1.ops[0], OpIdAt(Change1, 0)) == Ok(Mid1a)
  {
    WfOne(Log1, Root0);
    Spell(1, "1234", "1@1234");
    Change1Dispatch0();
    OpStep(Start1, Change1.ops[0], OpIdAt(Change1, 0), "1@1234", Title1, Mid1a);
  }

  lemma Change1Dispatch1()
    ensures Dispatch(Title1, Change1.ops[1], "2@1234") == Success(Root1)
  {
    MapSetWins(Title1, Change1.ops[1], "2@1234");
  }

  lemma Change1Op1()
    ensures Wf(Mid1a)
    ensures ApplyOp(Mid1a, Change1.ops[1], OpIdAt(Change1, 1)) == Ok(Mid1b)
  {
    WfOne(Log1, Title1);
    NotRoot1234();
    Spell(2, "1234", "2@1234");
    Change1Dispatch1();
    MakeStep(Mid1a, Change1.ops[1], OpIdAt(Change1, 1), "2@1234", Root1, Mid1b);
  }

  lemma Change1Dispatch2()
    ensures Dispatch(Empty, Change1.ops[2], "3@1234") == Success(LFoo)
  {
    HeadOfEmpty("3@1234", S("foo"));
    ListInsertDispatch(Empty, Change1.ops[2], "3@1234");
  }

  lemma Change1Op2()
    ensures Wf(Mid1b)
    ensures ApplyOp(Mid1b, Change1.ops[2], OpIdAt(Change1, 2)) == Ok(AfterChange1)
  {
    NotRoot1234();
    WfTwo(Log1, Root1, "2@1234", Empty);
    Spell(3, "1234", "3@1234");
    Change1Dispatch2();
    SetList(Log1, Root1, "2@1234", Empty, LFoo);
    OpStep(Mid1b, Change1.ops[2], OpIdAt(Change1, 2), "3@1234", LFoo, AfterChange1);
  }

  lemma Change1Applies()
    ensures ApplyChange(Init(), Change1) == Ok(AfterChange1)
  {
    InitWf();
    NotRoot1234();
    var none: seq<Change> := [];
    assert none + [Change1] == [Change1];
    Admitted(Init(), Change1, Log1);
    Change1Op0();
    OpsStep(Start1, Change1, 0, Mid1a);
    Change1Op1();
    OpsStep(Mid1a, Change1, 1, Mid1b);
    Change1Op2();
    OpsStep(Mid1b, Change1, 2, AfterChange1);
    OpsDone(AfterChange1, Change1);
  }

  // ---------------------------------------------------------------------------
  // Change 2 after change 1

  lemma Change2Dispatch0()
    ensures Dispatch(Root1, Change2.ops[0], "4@1234") == Success(Root2)
  {
    Rank1234a();
    MapSetWins(Root1, Change2.ops[0], "4@1234");
    assert "title" != "tags";
    SetFirst("title", "tags", S("Hello"), Ref("2@1234"), S("Hello 1"));
    SetFirst("title", "tags", "1@1234", "2@1234", "4@1234");
  }

  lemma Change2Op0()
    ensures Wf(Start2)
    ensures ApplyOp(Start2, Change2.ops[0], OpIdAt(Change2, 0)) == Ok(Mid2a)
  {
    NotRoot1234();
    MatFoo();
    WfTwo(Log12, Root1, "2@1234", LFoo);
    Spell(4, "1234", "4@1234");
    Change2Dispatch0();
    SetRoot(Log12, Root1, Root2, "2@1234", LFoo);
    OpStep(Start2, Change2.ops[0], OpIdAt(Change2, 0), "4@1234", Root2, Mid2a);
  }

  lemma Change2Dispatch1()
    ensures Materialised(LFoo)
    ensures Dispatch(LFoo, Change2.ops[1], "5@1234") == Success(LFooBar)
  {
    MatFoo();
    AfterLast(LFoo, "3@1234", "5@1234", S("bar"));
    assert LFoo.meta + [NewRec("5@1234", S("bar"))] == LFooBar.meta;
    assert LFoo.items + [S("bar")] == LFooBar.items;
    ListInsertDispatch(LFoo, Change2.ops[1], "5@1234");
  }

  lemma Change2Op1()
    ensures Wf(Mid2a)
    ensures ApplyOp(Mid2a, Change2.ops[1], OpIdAt(Change2, 1)) == Ok(Mid2b)
  {
    NotRoot1234();
    MatFoo();
    WfTwo(Log12, Root2, "2@1234", LFoo);
    Spell(5, "1234", "5@1234");
    Change2Dispatch1();
    SetList(Log12, Root2, "2@1234", LFoo, LFooBar);
    OpStep(Mid2a, Change2.ops[1], OpIdAt(Change2, 1), "5@1234", LFooBar, Mid2b);
  }

  lemma Change2Dispatch2()
    ensures Materialised(LFooBar)
    ensures Dispatch(LFooBar, Change2.ops[2], "6@1234") == Success(LBar)
  {
    MatFooBar();
    DeleteFirst(LFooBar, "3@1234", "6@1234", Prim(Undefined));
    assert LFooBar.meta[0 := LFooBar.meta[0].(deleted := true)] == LBar.meta;
    assert LFooBar.items[1..] == LBar.items;
    ListUpdateDispatch(LFooBar, Change2.ops[2], "6@1234");
  }

  lemma Change2Op2()
    ensures Wf(Mid2b)
    ensures ApplyOp(Mid2b, Change2.ops[2], OpIdAt(Change2, 2)) == Ok(AfterChange2)
  {
    NotRoot1234();
    MatFooBar();
    WfTwo(Log12, Root2, "2@1234", LFooBar);
    Spell(6, "1234", "6@1234");
    Change2Dispatch2();
    SetList(Log12, Root2, "2@1234", LFooBar, LBar);
    OpStep(Mid2b, Change2.ops[2], OpIdAt(Change2, 2), "6@1234", LBar, AfterChange2);
  }

  lemma Change2AfterChange1()
    ensures Wf(AfterChange1)
    ensures ApplyChange(AfterChange1, Change2) == Ok(AfterChange2)
  {
    NotRoot1234();
    MatFoo();
    WfTwo(Log1, Root1, "2@1234", LFoo);
    WfTwo(Log12, Root1, "2@1234", LFoo);
    assert [Change1] + [Change2] == [Change1, Change2];
    Admitted(AfterChange1, Change2, Log12);
    Change2Op0();
    OpsStep(Start2, Change2, 0, Mid2a);
    Change2Op1();
    OpsStep(Mid2a, Change2, 1, Mid2b);
    Change2Op2();
    OpsStep(Mid2b, Change2, 2, AfterChange2);
    OpsDone(AfterChange2, Change2);
  }

  // ---------------------------------------------------------------------------
  // Change 3 after change 2

  lemma Change3Dispatch0()
    ensures Dispatch(Root2, Change3.ops[0], "4@abcd") == Success(RootC)
  {
    RankTitle();
    MapSetWins(Root2, Change3.ops[0], "4@abcd");
    assert "title" != "tags";
    SetFirst("title", "tags", S("Hello 1"), Ref("2@1234"), S("Hello 2"));
    SetFirst("title", "tags", "4@1234", "2@1234", "4@abcd");
  }

  lemma Change3Op0()
    ensures Wf(Start3)
    ensures ApplyOp(Start3, Change3.ops[0], OpIdAt(Change3, 0)) == Ok(Mid3)
  {
    NotRoot1234();
    MatBar();
    WfTwo(LogAll, Root2, "2@1234", LBar);
    Spell(4, "abcd", "4@abcd");
    Change3Dispatch0();
    SetRoot(LogAll, Root2, RootC, "2@1234", LBar);
    OpStep(Start3, Change3.ops[0], OpIdAt(Change3, 0), "4@abcd", RootC, Mid3);
  }

  /** An insert whose start and scan are known splices at the scanned position. */
  lemma InsertComputes(e: Entry, key: string, id: string, v: Value, start: nat, v0: nat, q: nat, vis: nat)
    requires Materialised(e)
    requires InsertStart(e.meta, key) == Success((start, v0))
    requires SkipGreater(e.meta, id, start, v0) == Some((q, vis))
    ensures q <= |e.meta| && vis <= |e.items|
    ensures ApplyListInsert(e, key, id, v)
            == Success(ListEntry(e.items[..vis] + [v] + e.items[vis..], e.meta[..q] + [NewRec(id, v)] + e.meta[q..]))
  {
    SpliceLive(e.meta, q, NewRec(id, v));
  }

  lemma SpliceAt0<T>(y: T, z: T)
    ensures [z][..0] + [y] + [z][0..] == [y, z]
  {
  }

  lemma SpliceAt1<T>(x: T, y: T, z: T)
    ensures [x, z][..1] + [y] + [x, z][1..] == [x, y, z]
  {
  }

  lemma SpliceAt2<T>(x: T, z: T, y: T)
    ensures [x, z][..2] + [y] + [x, z][2..] == [x, z, y]
  {
  }

  /** The concurrent insert lands before "bar", whose id is smaller. */
  lemma BazBeforeBar()
    ensures ApplyListInsert(LBar, "3@1234", "5@abcd", S("baz")) == Success(LBazBar)
  {
    MatBar();
    BazStartsAfterFoo();
    BazStopsAtBar();
    InsertComputes(LBar, "3@1234", "5@abcd", S("baz"), 1, 0, 1, 0);
    SpliceAt1(LBar.meta[0], NewRec("5@abcd", S("baz")), LBar.meta[1]);
    SpliceAt0(S("baz"), S("bar"));
  }

  lemma BazStartsAfterFoo()
    ensures InsertStart(LBar.meta, "3@1234") == Success((1, 0))
  {
    var m := LBar.meta;
    LiveSingle(m[0]);
    assert m[..0] == [] && m[..1] == [m[0]];
    assert FindFrom(m, "3@1234", 0, 0) == Some((0, 0));
  }

  lemma BazStopsAtBar()
    ensures |Live(LBar.meta[..1])| == 0
    ensures SkipGreater(LBar.meta, "5@abcd", 1, 0) == Some((1, 0))
  {
    RankBazBar();
    LiveSingle(LBar.meta[0]);
    assert LBar.meta[..1] == [LBar.meta[0]];
  }

  lemma Change3Dispatch1()
    ensures Materialised(LBar)
    ensures Dispatch(LBar, Change3.ops[1], "5@abcd") == Success(LBazBar)
  {
    MatBar();
    BazBeforeBar();
    ListInsertDispatch(LBar, Change3.ops[1], "5@abcd");
  }

  lemma Change3Op1()
    ensures Wf(Mid3)
    ensures ApplyOp(Mid3, Change3.ops[1], OpIdAt(Change3, 1)) == Ok(Converged)
  {
    NotRoot1234();
    MatBar();
    WfTwo(LogAll, RootC, "2@1234", LBar);
    Spell(5, "abcd", "5@abcd");
    Change3Dispatch1();
    SetList(LogAll, RootC, "2@1234", LBar, LBazBar);
    OpStep(Mid3, Change3.ops[1], OpIdAt(Change3, 1), "5@abcd", LBazBar, Converged);
  }

  lemma Change3AfterChange2()
    ensures Wf(AfterChange2)
    ensures ApplyChange(AfterChange2, Change3) == Ok(Converged)
  {
    NotRoot1234();
    MatBar();
    WfTwo(Log12, Root2, "2@1234", LBar);
    WfTwo(LogAll, Root2, "2@1234", LBar);
    var none: seq<Change> := [];
    assert none + [Change3] == [Change3];
    Admitted(AfterChange2, Change3, LogAll);
    Change3Op0();
    OpsStep(Start3, Change3, 0, Mid3);
    Change3Op1();
    OpsStep(Mid3, Change3, 1, Converged);
    OpsDone(Converged, Change3);
  }

  // ---------------------------------------------------------------------------
  // Change 3 after change 1

  lemma Change3xDispatch0()
    ensures Dispatch(Root1, Change3.ops[0], "4@abcd") == Success(RootC)
  {
    RankTitleEarly();
    MapSetWins(Root1, Change3.ops[0], "4@abcd");
    assert "title" != "tags";
    SetFirst("title", "tags", S("Hello"), Ref("2@1234"), S("Hello 2"));
    SetFirst("title", "tags", "1@1234", "2@1234", "4@abcd");
  }

  lemma Change3xOp0()
    ensures Wf(Start3x)
    ensures ApplyOp(Start3x, Change3.ops[0], OpIdAt(Change3, 0)) == Ok(Mid3x)
  {
    NotRoot1234();
    MatFoo();
    WfTwo(Log13, Root1, "2@1234", LFoo);
    Spell(4, "abcd", "4@abcd");
    Change3xDispatch0();
    SetRoot(Log13, Root1, RootC, "2@1234", LFoo);
    OpStep(Start3x, Change3.ops[0], OpIdAt(Change3, 0), "4@abcd", RootC, Mid3x);
  }

  lemma Change3xDispatch1()
    ensures Materialised(LFoo)
    ensures Dispatch(LFoo, Change3.ops[1], "5@abcd") == Success(LFooBaz)
  {
    MatFoo();
    AfterLast(LFoo, "3@1234", "5@abcd", S("baz"));
    assert LFoo.meta + [NewRec("5@abcd", S("baz"))] == LFooBaz.meta;
    assert LFoo.items + [S("baz")] == LFooBaz.items;
    ListInsertDispatch(LFoo, Change3.ops[1], "5@abcd");
  }

  lemma Change3xOp1()
    ensures Wf(Mid3x)
    ensures ApplyOp(Mid3x, Change3.ops[1], OpIdAt(Change3, 1)) == Ok(AfterChange3)
  {
    NotRoot1234();
    MatFoo();
    WfTwo(Log13, RootC, "2@1234", LFoo);
    Spell(5, "abcd", "5@abcd");
    Change3xDispatch1();
    SetList(Log13, RootC, "2@1234", LFoo, LFooBaz);
    OpStep(Mid3x, Change3.ops[1], OpIdAt(Change3, 1), "5@abcd", LFooBaz, AfterChange3);
  }

  lemma Change3AfterChange1()
    ensures Wf(AfterChange1)
    ensures ApplyChange(AfterChange1, Change3) == Ok(AfterChange3)
  {
    NotRoot1234();
    MatFoo();
    WfTwo(Log1, Root1, "2@1234", LFoo);
    WfTwo(Log13, Root1, "2@1234", LFoo);
    var none: seq<Change> := [];
    assert none + [Change3] == [Change3];
    Admitted(AfterChange1, Change3, Log13);
    Change3xOp0();
    OpsStep(Start3x, Change3, 0, Mid3x);
    Change3xOp1();
    OpsStep(Mid3x, Change3, 1, AfterChange3);
    OpsDone(AfterChange3, Change3);
  }

  // ---------------------------------------------------------------------------
  // Change 2 after change 3

  /** The title write of "1234" loses to the one of "abcd" already there. */
  lemma Change2xDispatch0()
    ensures Dispatch(RootC, Change2.ops[0], "4@1234") == Success(RootC)
  {
    RankTitleLate();
    MapSetLoses(RootC, Change2.ops[0], "4@1234");
  }

  lemma Change2xOp0()
    ensures Wf(Start2x)
    ensures ApplyOp(Start2x, Change2.ops[0], OpIdAt(Change2, 0)) == Ok(Start2x)
  {
    NotRoot1234();
    MatFooBaz();
    WfTwo(LogAll, RootC, "2@1234", LFooBaz);
    Spell(4, "1234", "4@1234");
    Change2xDispatch0();
    SetRoot(LogAll, RootC, RootC, "2@1234", LFooBaz);
    OpStep(Start2x, Change2.ops[0], OpIdAt(Change2, 0), "4@1234", RootC, Start2x);
  }

  /** The later-delivered insert skips past the concurrent one, whose id is greater. */
  lemma BarAfterBaz()
    ensures ApplyListInsert(LFooBaz, "3@1234", "5@1234", S("bar")) == Success(LFooBazBar)
  {
    MatFooBaz();
    BarStartsAfterFoo();
    BarPassesBaz();
    InsertComputes(LFooBaz, "3@1234", "5@1234", S("bar"), 1, 1, 2, 2);
    SpliceAt2(LFooBaz.meta[0], LFooBaz.meta[1], NewRec("5@1234", S("bar")));
    SpliceAt2(S("foo"), S("baz"), S("bar"));
  }

  lemma BarStartsAfterFoo()
    ensures InsertStart(LFooBaz.meta, "3@1234") == Success((1, 1))
  {
    var m := LFooBaz.meta;
    LiveSingle(m[0]);
    assert m[..0] == [] && m[..1] == [m[0]];
    assert FindFrom(m, "3@1234", 0, 0) == Some((0, 0));
  }

  lemma BarPassesBaz()
    ensures |Live(LFooBaz.meta[..1])| == 1
    ensures SkipGreater(LFooBaz.meta, "5@1234", 1, 1) == Some((2, 2))
  {
    RankBarBaz();
    var m := LFooBaz.meta;
    LiveSingle(m[0]);
    assert m[..1] == [m[0]];
    SkipPastLast(m, "5@1234", 1, 1);
  }

  /** A greater id passes the last record and lands at the end. */
  lemma SkipPastLast(meta: seq<ElemRec>, id: string, i: nat, vis: nat)
    requires i + 1 == |meta| && vis == |Live(meta[..i])|
    requires CompareOpIds(id, meta[i].elemId) == Some(true)
    ensures SkipGreater(meta, id, i, vis) == Some((i + 1, if meta[i].deleted then vis else vis + 1))
  {
    LiveStep(meta, i);
    assert meta[..i + 1] == meta;
  }

  lemma Change2xDispatch1()
    ensures Materialised(LFooBaz)
    ensures Dispatch(LFooBaz, Change2.ops[1], "5@1234") == Success(LFooBazBar)
  {
    MatFooBaz();
    BarAfterBaz();
    ListInsertDispatch(LFooBaz, Change2.ops[1], "5@1234");
  }

  lemma Change2xOp1()
    ensures Wf(Start2x)
    ensures ApplyOp(Start2x, Change2.ops[1], OpIdAt(Change2, 1)) == Ok(Mid2x)
  {
    NotRoot1234();
    MatFooBaz();
    WfTwo(LogAll, RootC, "2@1234", LFooBaz);
    Spell(5, "1234", "5@1234");
    Change2xDispatch1();
    SetList(LogAll, RootC, "2@1234", LFooBaz, LFooBazBar);
    OpStep(Start2x, Change2.ops[1], OpIdAt(Change2, 1), "5@1234", LFooBazBar, Mid2x);
  }

  lemma Change2xDispatch2()
    ensures Materialised(LFooBazBar)
    ensures Dispatch(LFooBazBar, Change2.ops[2], "6@1234") == Success(LBazBar)
  {
    MatFooBazBar();
    DeleteFirst(LFooBazBar, "3@1234", "6@1234", Prim(Undefined));
    assert LFooBazBar.meta[0 := LFooBazBar.meta[0].(deleted := true)] == LBazBar.meta;
    assert LFooBazBar.items[1..] == LBazBar.items;
    ListUpdateDispatch(LFooBazBar, Change2.ops[2], "6@1234");
  }

  lemma Change2xOp2()
    ensures Wf(Mid2x)
    ensures ApplyOp(Mid2x, Change2.ops[2], OpIdAt(Change2, 2)) == Ok(Converged)
  {
    NotRoot1234();
    MatFooBazBar();
    WfTwo(LogAll, RootC, "2@1234", LFooBazBar);
    Spell(6, "1234", "6@1234");
    Change2xDispatch2();
    SetList(LogAll, RootC, "2@1234", LFooBazBar, LBazBar);
    OpStep(Mid2x, Change2.ops[2], OpIdAt(Change2, 2), "6@1234", LBazBar, Converged);
  }

  lemma Change2AfterChange3()
    ensures Wf(AfterChange3)
    ensures ApplyChange(AfterChange3, Change2) == Ok(Converged)
  {
    NotRoot1234();
    MatFooBaz();
    WfTwo(Log13, RootC, "2@1234", LFooBaz);
    WfTwo(LogAll, RootC, "2@1234", LFooBaz);
    assert [Change1] + [Change2] == [Change1, Change2];
    Admitted(AfterChange3, Change2, LogAll);
    Change2xOp0();
    OpsStep(Start2x, Change2, 0, Start2x);
    Change2xOp1();
    OpsStep(Start2x, Change2, 1, Mid2x);
    Change2xOp2();
    OpsStep(Mid2x, Change2, 2, Converged);
    OpsDone(Converged, Change2);
  }

  // ---------------------------------------------------------------------------
  // Both delivery orders converge

  lemma ChangesStep(d: Doc, cs: seq<Change>, d1: Doc)
    requires Wf(d) && |cs| > 0 && ApplyChange(d, cs[0]) == Ok(d1)
    ensures Wf(d1) && ApplyChanges(d, cs) == ApplyChanges(d1, cs[1..])
  {
  }

  lemma Tail1<T>(a: T)
    ensures [a][0] == a && [a][1..] == []
  {
  }

  lemma Tail2<T>(a: T, b: T)
    ensures [a, b][0] == a && [a, b][1..] == [b]
  {
  }

  lemma Tail3<T>(a: T, b: T, c: T)
    ensures [a, b, c][0] == a && [a, b, c][1..] == [b, c]
  {
  }

  lemma Deliver1(d: Doc, c: Change, d1: Doc)
    requires Wf(d) && ApplyChange(d, c) == Ok(d1)
    ensures ApplyChanges(d, [c]) == Ok(d1)
  {
    Tail1(c);
    ChangesStep(d, [c], d1);
  }

  lemma Deliver2(d: Doc, c1: Change, c2: Change, d1: Doc, d2: Doc)
    requires Wf(d) && ApplyChange(d, c1) == Ok(d1)
    requires ApplyChange(d1, c2) == Ok(d2)
    ensures ApplyChanges(d, [c1, c2]) == Ok(d2)
  {
    Tail2(c1, c2);
    ChangesStep(d, [c1, c2], d1);
    Deliver1(d1, c2, d2);
  }

  /** Three changes, each accepted in turn, make a run that ends where the last one does. */
  lemma Deliver3(d: Doc, c1: Change, c2: Change, c3: Change, d1: Doc, d2: Doc, d3: Doc)
    requires Wf(d) && ApplyChange(d, c1) == Ok(d1)
    requires ApplyChange(d1, c2) == Ok(d2)
    requires ApplyChange(d2, c3) == Ok(d3)
    ensures ApplyChanges(d, [c1, c2, c3]) == Ok(d3)
  {
    Tail3(c1, c2, c3);
    ChangesStep(d, [c1, c2, c3], d1);
    Deliver2(d1, c2, c3, d2, d3);
  }

  /** Two objects: a root map with a title and a reference to a list. */
  lemma TwoLevel(d: Doc, title: Value, l: string, items: seq<Value>, j: seq<Json>)
    requires RootId in d.store && d.store[RootId].MapEntry? && d.store[RootId].fields == map["title" := title, "tags" := Ref(l)]
    requires title.Prim? && l in d.store && d.store[l].ListEntry? && d.store[l].items == items
    requires |j| == |items| && forall i :: 0 <= i < |items| ==> items[i].Prim? && j[i] == JPrim(items[i].p)
    ensures RootValue(d, 2) == JMap(map["title" := JPrim(title.p), "tags" := JList(j)])
  {
    var tags := Materialize(d, Ref(l), 1);
    assert tags == JList(j);
    var fields := d.store[RootId].fields;
    var m := map k | k in fields :: Materialize(d, fields[k], 1);
    assert m == map["title" := JPrim(title.p), "tags" := JList(j)];
  }

  lemma DeliveredInOrder()
    ensures ApplyChanges(Init(), [Change1, Change2, Change3]) == Ok(Converged)
  {
    InitWf();
    Change1Applies();
    Change2AfterChange1();
    Change3AfterChange2();
    Deliver3(Init(), Change1, Change2, Change3, AfterChange1, AfterChange2, Converged);
  }

  lemma DeliveredSwapped()
    ensures ApplyChanges(Init(), [Change1, Change3, Change2]) == Ok(Converged)
  {
    InitWf();
    Change1Applies();
    Change3AfterChange1();
    Change2AfterChange3();
    Deliver3(Init(), Change1, Change3, Change2, AfterChange1, AfterChange3, Converged);
  }

  /** The assertion of lines 262-269: whichever of the concurrent changes
      arrives first, both replicas end in the same document, which reads as
      `{ title: 'Hello 2', tags: ['baz', 'bar'] }`. */
  lemma ReferenceScenario()
    ensures ApplyChanges(Init(), [Change1, Change2, Change3]) == Ok(Converged)
    ensures ApplyChanges(Init(), [Change1, Change3, Change2]) == Ok(Converged)
    ensures RootValue(Converged, 2) == JMap(map["title" := JS("Hello 2"), "tags" := JList([JS("baz"), JS("bar")])])
  {
    DeliveredInOrder();
    DeliveredSwapped();
    ConvergedReads();
  }

  lemma ConvergedReads()
    ensures RootValue(Converged, 2) == JMap(map["title" := JS("Hello 2"), "tags" := JList([JS("baz"), JS("bar")])])
  {
    NotRoot1234();
    TwoLevel(Converged, S("Hello 2"), "2@1234", [S("baz"), S("bar")], [JS("baz"), JS("bar")]);
  }

  // ---------------------------------------------------------------------------
  // The todo scenario: one actor creates, deletes, overwrites and appends

  const RootT: Entry := MapEntry(map["todos" := Ref("1@2345")], map["todos" := "1@2345"])

  const T2: ElemRec := Rec("2@2345", "Task 1")
  const T3: ElemRec := Rec("3@2345", "Task 2")
  const T5: ElemRec := Rec("5@2345", "Task 3")
  /** Element 5@2345 after the overwrite by op 7@2345. */
  const T5b: ElemRec := ElemRec("5@2345", "7@2345", false, S("Task 3b"))
  const T8: ElemRec := Rec("8@2345", "Task 4")

  const L1: Entry := ListEntry([S("Task 1")], [T2])
  const L12: Entry := ListEntry([S("Task 1"), S("Task 2")], [T2, T3])
  const L2: Entry := ListEntry([S("Task 2")], [Dead(T2), T3])
  const L23: Entry := ListEntry([S("Task 2"), S("Task 3")], [Dead(T2), T3, T5])
  const L3: Entry := ListEntry([S("Task 3")], [Dead(T2), Dead(T3), T5])
  const L3b: Entry := ListEntry([S("Task 3b")], [Dead(T2), Dead(T3), T5b])
  const L3b4: Entry := ListEntry([S("Task 3b"), S("Task 4")], [Dead(T2), Dead(T3), T5b, T8])

  const Log4: map<string, seq<Change>> := map["2345" := [Change4]]
  const Log5: map<string, seq<Change>> := map["2345" := [Change4, Change5]]
  const Log6: map<string, seq<Change>> := map["2345" := [Change4, Change5, Change6]]

  const Start4: Doc := Doc(Log4, map[RootId := Root0])
  const Mid4a: Doc := Doc(Log4, map[RootId := RootT, "1@2345" := Empty])
  const Mid4b: Doc := Doc(Log4, map[RootId := RootT, "1@2345" := L1])
  const AfterChange4: Doc := Doc(Log4, map[RootId := RootT, "1@2345" := L12])

  const Start5: Doc := Doc(Log5, map[RootId := RootT, "1@2345" := L12])
  const Mid5: Doc := Doc(Log5, map[RootId := RootT, "1@2345" := L2])
  const AfterChange5: Doc := Doc(Log5, map[RootId := RootT, "1@2345" := L23])

  const Start6: Doc := Doc(Log6, map[RootId := RootT, "1@2345" := L23])
  const Mid6a: Doc := Doc(Log6, map[RootId := RootT, "1@2345" := L3])
  const Mid6b: Doc := Doc(Log6, map[RootId := RootT, "1@2345" := L3b])
  const AfterChange6: Doc := Doc(Log6, map[RootId := RootT, "1@2345" := L3b4])

  lemma NotRoot2345()
    ensures "1@2345" != RootId
  {
    assert "1@2345"[0] != RootId[0];
  }

  lemma Mat4(a: ElemRec, b: ElemRec, c: ElemRec, d: ElemRec)
    ensures Live([a, b, c, d]) == Live([a]) + Live([b]) + Live([c]) + Live([d])
  {
    assert [a, b, c, d][..3] == [a, b, c];
    Mat3(a, b, c);
  }

  lemma Mat1()
    ensures Materialised(L1)
  {
    LiveSingle(T2);
  }

  lemma Mat12()
    ensures Materialised(L12)
  {
    Mat2(T2, T3);
    LiveSingle(T2);
    LiveSingle(T3);
  }

  lemma Mat2Only()
    ensures Materialised(L2)
  {
    Mat2(Dead(T2), T3);
    LiveSingle(Dead(T2));
    LiveSingle(T3);
  }

  lemma Mat23()
    ensures Materialised(L23)
  {
    Mat3(Dead(T2), T3, T5);
    LiveSingle(Dead(T2));
    LiveSingle(T3);
    LiveSingle(T5);
  }

  lemma Mat3Only()
    ensures Materialised(L3)
  {
    Mat3(Dead(T2), Dead(T3), T5);
    LiveSingle(Dead(T2));
    LiveSingle(Dead(T3));
    LiveSingle(T5);
  }

  lemma Mat3b()
    ensures Materialised(L3b)
  {
    Mat3(Dead(T2), Dead(T3), T5b);
    LiveSingle(Dead(T2));
    LiveSingle(Dead(T3));
    LiveSingle(T5b);
  }

  lemma Mat3b4()
    ensures Materialised(L3b4)
  {
    Mat4(Dead(T2), Dead(T3), T5b, T8);
    LiveSingle(Dead(T2));
    LiveSingle(Dead(T3));
    LiveSingle(T5b);
    LiveSingle(T8);
  }

  /** Allocating a list and binding it in the root of a one-object document. */
  lemma Alloc(log: map<string, seq<Change>>, root: Entry, root': Entry, k: string)
    requires k != RootId
    ensures var d := Doc(log, map[RootId := root]);
            d.store[RootId] == root && d.(store := d.store[k := Empty][RootId := root']) == Doc(log, map[RootId := root', k := Empty])
  {
  }

  // Change 4

  lemma Change4Dispatch0()
    ensures Dispatch(Root0, Change4.ops[0], "1@2345") == Success(RootT)
  {
    MapSetWins(Root0, Change4.ops[0], "1@2345");
  }

  lemma Change4Op0()
    ensures Wf(Start4)
    ensures ApplyOp(Start4, Change4.ops[0], OpIdAt(Change4, 0)) == Ok(Mid4a)
  {
    NotRoot2345();
    WfOne(Log4, Root0);
    Spell(1, "2345", "1@2345");
    Change4Dispatch0();
    Alloc(Log4, Root0, RootT, "1@2345");
    MakeStep(Start4, Change4.ops[0], OpIdAt(Change4, 0), "1@2345", RootT, Mid4a);
  }

  lemma Change4Dispatch1()
    ensures Dispatch(Empty, Change4.ops[1], "2@2345") == Success(L1)
  {
    HeadOfEmpty("2@2345", S("Task 1"));
    ListInsertDispatch(Empty, Change4.ops[1], "2@2345");
  }

  lemma Change4Op1()
    ensures Wf(Mid4a)
    ensures ApplyOp(Mid4a, Change4.ops[1], OpIdAt(Change4, 1)) == Ok(Mid4b)
  {
    NotRoot2345();
    WfTwo(Log4, RootT, "1@2345", Empty);
    Spell(2, "2345", "2@2345");
    Change4Dispatch1();
    SetList(Log4, RootT, "1@2345", Empty, L1);
    OpStep(Mid4a, Change4.ops[1], OpIdAt(Change4, 1), "2@2345", L1, Mid4b);
  }

  lemma Change4Dispatch2()
    ensures Materialised(L1)
    ensures Dispatch(L1, Change4.ops[2], "3@2345") == Success(L12)
  {
    Mat1();
    AfterLast(L1, "2@2345", "3@2345", S("Task 2"));
    assert L1.meta + [NewRec("3@2345", S("Task 2"))] == L12.meta;
    assert L1.items + [S("Task 2")] == L12.items;
    ListInsertDispatch(L1, Change4.ops[2], "3@2345");
  }

  lemma Change4Op2()
    ensures Wf(Mid4b)
    ensures ApplyOp(Mid4b, Change4.ops[2], OpIdAt(Change4, 2)) == Ok(AfterChange4)
  {
    NotRoot2345();
    Mat1();
    WfTwo(Log4, RootT, "1@2345", L1);
    Spell(3, "2345", "3@2345");
    Change4Dispatch2();
    SetList(Log4, RootT, "1@2345", L1, L12);
    OpStep(Mid4b, Change4.ops[2], OpIdAt(Change4, 2), "3@2345", L12, AfterChange4);
  }

  lemma Change4Applies()
    ensures ApplyChange(Init(), Change4) == Ok(AfterChange4)
  {
    InitWf();
    var none: seq<Change> := [];
    assert none + [Change4] == [Change4];
    Admitted(Init(), Change4, Log4);
    Change4Op0();
    OpsStep(Start4, Change4, 0, Mid4a);
    Change4Op1();
    OpsStep(Mid4a, Change4, 1, Mid4b);
    Change4Op2();
    OpsStep(Mid4b, Change4, 2, AfterChange4);
    OpsDone(AfterChange4, Change4);
  }

  // Change 5

  lemma Change5Dispatch0()
    ensures Materialised(L12)
    ensures Dispatch(L12, Change5.ops[0], "4@2345") == Success(L2)
  {
    Mat12();
    DeleteFirst(L12, "2@2345", "4@2345", Prim(Undefined));
    assert L12.meta[0 := L12.meta[0].(deleted := true)] == L2.meta;
    assert L12.items[1..] == L2.items;
    ListUpdateDispatch(L12, Change5.ops[0], "4@2345");
  }

  lemma Change5Op0()
    ensures Wf(Start5)
    ensures ApplyOp(Start5, Change5.ops[0], OpIdAt(Change5, 0)) == Ok(Mid5)
  {
    NotRoot2345();
    Mat12();
    WfTwo(Log5, RootT, "1@2345", L12);
    Spell(4, "2345", "4@2345");
    Change5Dispatch0();
    SetList(Log5, RootT, "1@2345", L12, L2);
    OpStep(Start5, Change5.ops[0], OpIdAt(Change5, 0), "4@2345", L2, Mid5);
  }

  lemma Change5Dispatch1()
    ensures Materialised(L2)
    ensures Dispatch(L2, Change5.ops[1], "5@2345") == Success(L23)
  {
    Mat2Only();
    AfterLast(L2, "3@2345", "5@2345", S("Task 3"));
    assert L2.meta + [NewRec("5@2345", S("Task 3"))] == L23.meta;
    assert L2.items + [S("Task 3")] == L23.items;
    ListInsertDispatch(L2, Change5.ops[1], "5@2345");
  }

  lemma Change5Op1()
    ensures Wf(Mid5)
    ensures ApplyOp(Mid5, Change5.ops[1], OpIdAt(Change5, 1)) == Ok(AfterChange5)
  {
    NotRoot2345();
    Mat2Only();
    WfTwo(Log5, RootT, "1@2345", L2);
    Spell(5, "2345", "5@2345");
    Change5Dispatch1();
    SetList(Log5, RootT, "1@2345", L2, L23);
    OpStep(Mid5, Change5.ops[1], OpIdAt(Change5, 1), "5@2345", L23, AfterChange5);
  }

  lemma Change5Applies()
    ensures Wf(AfterChange4)
    ensures ApplyChange(AfterChange4, Change5) == Ok(AfterChange5)
  {
    NotRoot2345();
    Mat12();
    WfTwo(Log4, RootT, "1@2345", L12);
    assert [Change4] + [Change5] == [Change4, Change5];
    Admitted(AfterChange4, Change5, Log5);
    Change5Op0();
    OpsStep(Start5, Change5, 0, Mid5);
    Change5Op1();
    OpsStep(Mid5, Change5, 1, AfterChange5);
    OpsDone(AfterChange5, Change5);
  }

  // Change 6

  /** Deleting the second record: the first is already a tombstone. */
  lemma Change6Dispatch0()
    ensures Materialised(L23)
    ensures Dispatch(L23, Change6.ops[0], "6@2345") == Success(L3)
  {
    Mat23();
    var m := L23.meta;
    LiveSingle(m[0]);
    assert m[..1] == [m[0]];
    assert FindFrom(m, "3@2345", 1, 0) == Some((1, 0));
    assert FindFrom(m, "3@2345", 0, 0) == Some((1, 0));
    assert L23.items[..0] + L23.items[1..] == L3.items;
    assert m[1 := m[1].(deleted := true)] == L3.meta;
    ListUpdateDispatch(L23, Change6.ops[0], "6@2345");
  }

  lemma Change6Op0()
    ensures Wf(Start6)
    ensures ApplyOp(Start6, Change6.ops[0], OpIdAt(Change6, 0)) == Ok(Mid6a)
  {
    NotRoot2345();
    Mat23();
    WfTwo(Log6, RootT, "1@2345", L23);
    Spell(6, "2345", "6@2345");
    Change6Dispatch0();
    SetList(Log6, RootT, "1@2345", L23, L3);
    OpStep(Start6, Change6.ops[0], OpIdAt(Change6, 0), "6@2345", L3, Mid6a);
  }

  /** Overwriting the third record: op 7@2345 is newer than its value 5@2345. */
  lemma Change6Dispatch1()
    ensures Materialised(L3)
    ensures Dispatch(L3, Change6.ops[1], "7@2345") == Success(L3b)
  {
    Mat3Only();
    RankTask();
    Task3Found();
    var m := L3.meta;
    UpdateComputes(L3, "5@2345", "7@2345", S("Task 3b"), 2, 0);
    assert L3.items[0 := S("Task 3b")] == L3b.items;
    assert m[2 := m[2].(valueId := "7@2345", value := S("Task 3b"))] == L3b.meta;
    ListUpdateDispatch(L3, Change6.ops[1], "7@2345");
  }

  /** The third record, behind two tombstones, is the first live one. */
  lemma Task3Found()
    ensures FindListElement(L3.meta, "5@2345") == Success((2, 0))
  {
    var m := L3.meta;
    LiveSingle(m[0]);
    LiveSingle(m[1]);
    assert m[..1] == [m[0]] && m[..2] == [m[0], m[1]];
    Mat2(m[0], m[1]);
    assert FindFrom(m, "5@2345", 2, 0) == Some((2, 0));
    assert FindFrom(m, "5@2345", 1, 0) == Some((2, 0));
  }

  lemma Change6Op1()
    ensures Wf(Mid6a)
    ensures ApplyOp(Mid6a, Change6.ops[1], OpIdAt(Change6, 1)) == Ok(Mid6b)
  {
    NotRoot2345();
    Mat3Only();
    WfTwo(Log6, RootT, "1@2345", L3);
    Spell(7, "2345", "7@2345");
    Change6Dispatch1();
    SetList(Log6, RootT, "1@2345", L3, L3b);
    OpStep(Mid6a, Change6.ops[1], OpIdAt(Change6, 1), "7@2345", L3b, Mid6b);
  }

  lemma Change6Dispatch2()
    ensures Materialised(L3b)
    ensures Dispatch(L3b, Change6.ops[2], "8@2345") == Success(L3b4)
  {
    Mat3b();
    AfterLast(L3b, "5@2345", "8@2345", S("Task 4"));
    assert L3b.meta + [NewRec("8@2345", S("Task 4"))] == L3b4.meta;
    assert L3b.items + [S("Task 4")] == L3b4.items;
    ListInsertDispatch(L3b, Change6.ops[2], "8@2345");
  }

  lemma Change6Op2()
    ensures Wf(Mid6b)
    ensures ApplyOp(Mid6b, Change6.ops[2], OpIdAt(Change6, 2)) == Ok(AfterChange6)
  {
    NotRoot2345();
    Mat3b();
    WfTwo(Log6, RootT, "1@2345", L3b);
    Spell(8, "2345", "8@2345");
    Change6Dispatch2();
    SetList(Log6, RootT, "1@2345", L3b, L3b4);
    OpStep(Mid6b, Change6.ops[2], OpIdAt(Change6, 2), "8@2345", L3b4, AfterChange6);
  }

  lemma Change6Applies()
    ensures Wf(AfterChange5)
    ensures ApplyChange(AfterChange5, Change6) == Ok(AfterChange6)
  {
    NotRoot2345();
    Mat23();
    WfTwo(Log5, RootT, "1@2345", L23);
    assert [Change4, Change5] + [Change6] == [Change4, Change5, Change6];
    Admitted(AfterChange5, Change6, Log6);
    Change6Op0();
    OpsStep(Start6, Change6, 0, Mid6a);
    Change6Op1();
    OpsStep(Mid6a, Change6, 1, Mid6b);
    Change6Op2();
    OpsStep(Mid6b, Change6, 2, AfterChange6);
    OpsDone(AfterChange6, Change6);
  }

  /** A root map whose only field refers to a list of primitives. */
  lemma OneList(d: Doc, key: string, l: string, items: seq<Value>, j: seq<Json>)
    requires RootId in d.store && d.store[RootId].MapEntry? && d.store[RootId].fields == map[key := Ref(l)]
    requires l in d.store && d.store[l].ListEntry? && d.store[l].items == items
    requires |j| == |items| && forall i :: 0 <= i < |items| ==> items[i].Prim? && j[i] == JPrim(items[i].p)
    ensures RootValue(d, 2) == JMap(map[key := JList(j)])
  {
    assert Materialize(d, Ref(l), 1) == JList(j);
    var fields := d.store[RootId].fields;
    assert (map k | k in fields :: Materialize(d, fields[k], 1)) == map[key := JList(j)];
  }

  /** The assertions of lines 277, 284 and 291: the todo list reads
      ['Task 1', 'Task 2'], then ['Task 2', 'Task 3'], then ['Task 3b', 'Task 4']. */
  lemma TodoScenario()
    ensures ApplyChange(Init(), Change4) == Ok(AfterChange4)
    ensures RootValue(AfterChange4, 2) == JMap(map["todos" := JList([JS("Task 1"), JS("Task 2")])])
    ensures Wf(AfterChange4) && ApplyChange(AfterChange4, Change5) == Ok(AfterChange5)
    ensures RootValue(AfterChange5, 2) == JMap(map["todos" := JList([JS("Task 2"), JS("Task 3")])])
    ensures Wf(AfterChange5) && ApplyChange(AfterChange5, Change6) == Ok(AfterChange6)
    ensures RootValue(AfterChange6, 2) == JMap(map["todos" := JList([JS("Task 3b"), JS("Task 4")])])
  {
    Change4Applies();
    Change5Applies();
    Change6Applies();
    TodosRead();
  }

  lemma TodosRead()
    ensures RootValue(AfterChange4, 2) == JMap(map["todos" := JList([JS("Task 1"), JS("Task 2")])])
    ensures RootValue(AfterChange5, 2) == JMap(map["todos" := JList([JS("Task 2"), JS("Task 3")])])
    ensures RootValue(AfterChange6, 2) == JMap(map["todos" := JList([JS("Task 3b"), JS("Task 4")])])
  {
    NotRoot2345();
    OneList(AfterChange4, "todos", "1@2345", L12.items, [JS("Task 1"), JS("Task 2")]);
    OneList(AfterChange5, "todos", "1@2345", L23.items, [JS("Task 2"), JS("Task 3")]);
    OneList(AfterChange6, "todos", "1@2345", L3b4.items, [JS("Task 3b"), JS("Task 4")]);
  }
}
