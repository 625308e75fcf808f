/**
 * The chat screen's extension of DifferenceKit: collapsing a two-stage
 * "delete then insert" changeset into one stage, and replaying staged
 * changesets on the collection view as batch updates, falling back to a full
 * reload of the final snapshot when there is no window or a stage asks to
 * interrupt.
 *
 * The collection view is modelled by the trace of calls made on it.  Batch
 * completions and the dispatch group are treated as synchronous: the
 * group's notification runs after the last batch.
 */
module StagedChangesets {
  import opened Opt

  /** DifferenceKit's `ElementPath`: an element index inside a section. */
  datatype ElementPath = ElementPath(element: int, section: int)

  /** DifferenceKit's `Changeset`: one stage of a staged diff. */
  datatype Changeset<C> = Changeset(
    data: C,
    sectionDeleted: seq<int>,
    sectionInserted: seq<int>,
    sectionUpdated: seq<int>,
    sectionMoved: seq<(int, int)>,
    elementDeleted: seq<ElementPath>,
    elementInserted: seq<ElementPath>,
    elementUpdated: seq<ElementPath>,
    elementMoved: seq<(ElementPath, ElementPath)>)
  {
    function SectionChangeCount(): nat {
      |sectionDeleted| + |sectionInserted| + |sectionUpdated| + |sectionMoved|
    }

    function ElementChangeCount(): nat {
      |elementDeleted| + |elementInserted| + |elementUpdated| + |elementMoved|
    }
  }

  /** `Changeset(data:elementDeleted:elementInserted:)`: every other change list empty. */
  function ElementChangeset<C>(data: C, deleted: seq<ElementPath>, inserted: seq<ElementPath>): Changeset<C> {
    Changeset(data, [], [], [], [], deleted, [], [], []).(elementInserted := inserted)
  }

  function LastStage<C>(s: seq<Changeset<C>>): Changeset<C>
    requires |s| > 0
  {
    s[|s| - 1]
  }

  // --------------------------------------------------------- flattening

  /**
   * Exactly two stages, no section changes, the first only deletes elements
   * and the second only inserts them.
   */
  predicate CanFlatten<C>(s: seq<Changeset<C>>) {
    |s| == 2 &&
    s[0].SectionChangeCount() == 0 && s[1].SectionChangeCount() == 0 &&
    |s[0].elementDeleted| == s[0].ElementChangeCount() &&
    |s[1].elementInserted| == s[1].ElementChangeCount()
  }

  /** `StagedChangeset.flattenIfPossible()`. */
  function FlattenIfPossible<C>(s: seq<Changeset<C>>): (r: seq<Changeset<C>>)
    ensures |s| > 0 ==> |r| > 0 && LastStage(r).data == LastStage(s).data
    ensures |r| <= |s|
  {
    if CanFlatten(s) then [ElementChangeset(s[1].data, s[0].elementDeleted, s[1].elementInserted)]
    else s
  }

  /**
   * The stages collapse exactly when `CanFlatten` holds; the single stage
   * left has no section changes and carries every element change of the two
   * (stage 0's deletions, stage 1's insertions).  Otherwise the stages are
   * returned unchanged.
   */
  lemma FlattenIfPossibleSpec<C>(s: seq<Changeset<C>>)
    ensures FlattenIfPossible(s) != s <==> CanFlatten(s)
    ensures CanFlatten(s) ==>
      var r := FlattenIfPossible(s);
      |r| == 1 && r[0].data == s[1].data &&
      r[0].elementDeleted == s[0].elementDeleted && r[0].elementInserted == s[1].elementInserted &&
      r[0].SectionChangeCount() == 0 &&
      r[0].ElementChangeCount() == s[0].ElementChangeCount() + s[1].ElementChangeCount()
  {
  }

  /** Flattening twice is flattening once. */
  lemma FlattenIfPossibleIdempotent<C>(s: seq<Changeset<C>>)
    ensures FlattenIfPossible(FlattenIfPossible(s)) == FlattenIfPossible(s)
  {
  }

  // --------------------------------------------------------------- replay

  /** The calls made inside one `performBatchUpdates` block. */
  datatype BatchOp<C> =
    | SetBatchData(data: C)
    | DeleteSections(sections: seq<int>)
    | InsertSections(sections: seq<int>)
    | ReloadSections(sections: seq<int>)
    | MoveSection(from: int, to: int)
    | DeleteItems(items: seq<ElementPath>)
    | InsertItems(items: seq<ElementPath>)
    | ReloadItems(items: seq<ElementPath>)
    | MoveItem(source: ElementPath, target: ElementPath)

  /** The calls `reload(using:…)` makes, in order. */
  datatype ViewOp<C> =
    | SetData(data: C)
    | ReloadData
    | InterruptedReload
    | PerformBatch(stage: Changeset<C>)  // `performBatchUpdates` running `BatchOps(stage)`
    | Completion(finished: bool)

  function SectionMoves<C>(moves: seq<(int, int)>): (r: seq<BatchOp<C>>)
    ensures |r| == |moves|
    ensures forall i :: 0 <= i < |r| ==> r[i] == MoveSection(moves[i].0, moves[i].1)
  {
    seq(|moves|, i requires 0 <= i < |moves| => MoveSection(moves[i].0, moves[i].1))
  }

  function ItemMoves<C>(moves: seq<(ElementPath, ElementPath)>): (r: seq<BatchOp<C>>)
    ensures |r| == |moves|
    ensures forall i :: 0 <= i < |r| ==> r[i] == MoveItem(moves[i].0, moves[i].1)
  {
    seq(|moves|, i requires 0 <= i < |moves| => MoveItem(moves[i].0, moves[i].1))
  }

  function IfAny<C>(xs: seq<int>, op: BatchOp<C>): seq<BatchOp<C>> {
    if |xs| == 0 then [] else [op]
  }

  function IfAnyItem<C>(xs: seq<ElementPath>, op: BatchOp<C>): seq<BatchOp<C>> {
    if |xs| == 0 then [] else [op]
  }

  /** The section calls of a batch. */
  function SectionOps<C>(cs: Changeset<C>): seq<BatchOp<C>> {
    IfAny(cs.sectionDeleted, DeleteSections(cs.sectionDeleted)) +
    IfAny(cs.sectionInserted, InsertSections(cs.sectionInserted)) +
    IfAny(cs.sectionUpdated, ReloadSections(cs.sectionUpdated)) +
    SectionMoves(cs.sectionMoved)
  }

  /** The element calls of a batch. */
  function ElementOps<C>(cs: Changeset<C>): seq<BatchOp<C>> {
    IfAnyItem(cs.elementDeleted, DeleteItems(cs.elementDeleted)) +
    IfAnyItem(cs.elementInserted, InsertItems(cs.elementInserted)) +
    IfAnyItem(cs.elementUpdated, ReloadItems(cs.elementUpdated)) +
    ItemMoves(cs.elementMoved)
  }

  /** The body of the `performBatchUpdates` block for one stage. */
  function BatchOps<C>(cs: Changeset<C>): seq<BatchOp<C>> {
    [SetBatchData(cs.data)] + SectionOps(cs) + ElementOps(cs)
  }

  /** The section half of the `performBatchUpdates` block, call by call. */
  method SectionUpdates<C>(cs: Changeset<C>) returns (ops: seq<BatchOp<C>>)
    ensures ops == SectionOps(cs)
  {
    ops := [];
    if |cs.sectionDeleted| > 0 {
      ops := ops + [DeleteSections(cs.sectionDeleted)];
    }
    if |cs.sectionInserted| > 0 {
      ops := ops + [InsertSections(cs.sectionInserted)];
    }
    if |cs.sectionUpdated| > 0 {
      ops := ops + [ReloadSections(cs.sectionUpdated)];
    }
    var moves := SectionMovesLoop<C>(cs.sectionMoved);
    ops := ops + moves;
  }

  /** The `moveSection` calls, one per move, in order. */
  method SectionMovesLoop<C>(moves: seq<(int, int)>) returns (ops: seq<BatchOp<C>>)
    ensures ops == SectionMoves(moves)
  {
    ops := [];
    for i := 0 to |moves|
      invariant |ops| == i
      invariant forall j :: 0 <= j < i ==> ops[j] == MoveSection(moves[j].0, moves[j].1)
    {
      ops := ops + [MoveSection(moves[i].0, moves[i].1)];
    }
  }

  /** The element half of the `performBatchUpdates` block, call by call. */
  method ElementUpdates<C>(cs: Changeset<C>) returns (ops: seq<BatchOp<C>>)
    ensures ops == ElementOps(cs)
  {
    ops := [];
    if |cs.elementDeleted| > 0 {
      ops := ops + [DeleteItems(cs.elementDeleted)];
    }
    if |cs.elementInserted| > 0 {
      ops := ops + [InsertItems(cs.elementInserted)];
    }
    if |cs.elementUpdated| > 0 {
      ops := ops + [ReloadItems(cs.elementUpdated)];
    }
    var moves := ItemMovesLoop<C>(cs.elementMoved);
    ops := ops + moves;
  }

  /** The `moveItem` calls, one per move, in order. */
  method ItemMovesLoop<C>(moves: seq<(ElementPath, ElementPath)>) returns (ops: seq<BatchOp<C>>)
    ensures ops == ItemMoves(moves)
  {
    ops := [];
    for i := 0 to |moves|
      invariant |ops| == i
      invariant forall j :: 0 <= j < i ==> ops[j] == MoveItem(moves[j].0, moves[j].1)
    {
      ops := ops + [MoveItem(moves[i].0, moves[i].1)];
    }
  }

  /** The `performBatchUpdates` block of `reload`: set the stage's data, then its changes. */
  method BatchUpdates<C>(cs: Changeset<C>) returns (ops: seq<BatchOp<C>>)
    ensures ops == BatchOps(cs)
  {
    ops := [SetBatchData(cs.data)];
    var sections := SectionUpdates(cs);
    ops := ops + sections;
    var elements := ElementUpdates(cs);
    ops := ops + elements;
  }

  /** Position of an operation kind in the fixed order of a batch. */
  function Rank<C>(op: BatchOp<C>): nat {
    match op
    case SetBatchData(_) => 0
    case DeleteSections(_) => 1
    case InsertSections(_) => 2
    case ReloadSections(_) => 3
    case MoveSection(_, _) => 4
    case DeleteItems(_) => 5
    case InsertItems(_) => 6
    case ReloadItems(_) => 7
    case MoveItem(_, _) => 8
  }

  /** The calls come in non-decreasing rank. */
  predicate RankOrdered<C>(ops: seq<BatchOp<C>>) {
    forall i, j :: 0 <= i < j < |ops| ==> Rank(ops[i]) <= Rank(ops[j])
  }

  predicate RanksWithin<C>(ops: seq<BatchOp<C>>, lo: nat, hi: nat) {
    forall i :: 0 <= i < |ops| ==> lo <= Rank(ops[i]) <= hi
  }

  lemma AppendOrdered<C>(a: seq<BatchOp<C>>, b: seq<BatchOp<C>>, lo: nat, mid: nat, hi: nat)
    requires RankOrdered(a) && RankOrdered(b)
    requires lo <= mid <= hi && RanksWithin(a, lo, mid) && RanksWithin(b, mid, hi)
    ensures RankOrdered(a + b) && RanksWithin(a + b, lo, hi)
  {
    forall i, j | 0 <= i < j < |a + b|
      ensures Rank((a + b)[i]) <= Rank((a + b)[j])
    {
      if j < |a| {
        assert (a + b)[i] == a[i] && (a + b)[j] == a[j];
      } else if i < |a| {
        assert (a + b)[i] == a[i] && (a + b)[j] == b[j - |a|];
      } else {
        assert (a + b)[i] == b[i - |a|] && (a + b)[j] == b[j - |a|];
      }
    }
    forall i | 0 <= i < |a + b|
      ensures lo <= Rank((a + b)[i]) <= hi
    {
      if i < |a| {
        assert (a + b)[i] == a[i];
      } else {
        assert (a + b)[i] == b[i - |a|];
      }
    }
  }

  lemma SectionOpsOrdered<C>(cs: Changeset<C>)
    ensures RankOrdered(SectionOps(cs)) && RanksWithin(SectionOps(cs), 1, 4)
  {
    var s1 := IfAny(cs.sectionDeleted, DeleteSections(cs.sectionDeleted));
    var s2 := IfAny(cs.sectionInserted, InsertSections(cs.sectionInserted));
    var s3 := IfAny(cs.sectionUpdated, ReloadSections(cs.sectionUpdated));
    var s4 := SectionMoves<C>(cs.sectionMoved);
    AppendOrdered(s1, s2, 1, 2, 2);
    AppendOrdered(s1 + s2, s3, 1, 3, 3);
    AppendOrdered(s1 + s2 + s3, s4, 1, 4, 4);
  }

  lemma ElementOpsOrdered<C>(cs: Changeset<C>)
    ensures RankOrdered(ElementOps(cs)) && RanksWithin(ElementOps(cs), 5, 8)
  {
    var s1 := IfAnyItem(cs.elementDeleted, DeleteItems(cs.elementDeleted));
    var s2 := IfAnyItem(cs.elementInserted, InsertItems(cs.elementInserted));
    var s3 := IfAnyItem(cs.elementUpdated, ReloadItems(cs.elementUpdated));
    var s4 := ItemMoves<C>(cs.elementMoved);
    AppendOrdered(s1, s2, 5, 6, 6);
    AppendOrdered(s1 + s2, s3, 5, 7, 7);
    AppendOrdered(s1 + s2 + s3, s4, 5, 8, 8);
  }

  /**
   * A batch first sets the stage's data and then makes its calls in the
   * fixed order section deletes, inserts, updates, moves, element deletes,
   * inserts, updates, moves; only the first call sets data.
   */
  lemma BatchOpsOrder<C>(cs: Changeset<C>)
    ensures var ops := BatchOps(cs);
      ops[0] == SetBatchData(cs.data) &&
      RankOrdered(ops) &&
      RanksWithin(ops[1..], 1, 8)
  {
    SectionOpsOrdered(cs);
    ElementOpsOrdered(cs);
    AppendOrdered(SectionOps(cs), ElementOps(cs), 1, 5, 8);
    var rest := SectionOps(cs) + ElementOps(cs);
    AppendOrdered([SetBatchData(cs.data)], rest, 0, 1, 8);
    assert BatchOps(cs) == [SetBatchData(cs.data)] + rest;
    assert BatchOps(cs)[1..] == rest;
  }

  lemma NotInRankedRun<C>(x: BatchOp<C>, ops: seq<BatchOp<C>>, lo: nat, hi: nat)
    requires RanksWithin(ops, lo, hi) && !(lo <= Rank(x) <= hi)
    ensures x !in ops
  {
  }

  lemma SectionMovesPresent<C>(moves: seq<(int, int)>, m: (int, int))
    requires m in moves
    ensures BatchOp<C>.MoveSection(m.0, m.1) in SectionMoves<C>(moves)
  {
    var k :| 0 <= k < |moves| && moves[k] == m;
    assert SectionMoves<C>(moves)[k] == MoveSection(m.0, m.1);
  }

  lemma ItemMovesPresent<C>(moves: seq<(ElementPath, ElementPath)>, m: (ElementPath, ElementPath))
    requires m in moves
    ensures BatchOp<C>.MoveItem(m.0, m.1) in ItemMoves<C>(moves)
  {
    var k :| 0 <= k < |moves| && moves[k] == m;
    assert ItemMoves<C>(moves)[k] == MoveItem(m.0, m.1);
  }

  /**
   * A section delete, insert or update call is made iff its list is
   * non-empty, and every section move gets its move call.
   */
  lemma SectionOpsPresence<C>(cs: Changeset<C>)
    ensures var ops := BatchOps(cs);
      (DeleteSections(cs.sectionDeleted) in ops <==> |cs.sectionDeleted| > 0) &&
      (InsertSections(cs.sectionInserted) in ops <==> |cs.sectionInserted| > 0) &&
      (ReloadSections(cs.sectionUpdated) in ops <==> |cs.sectionUpdated| > 0) &&
      (forall m :: m in cs.sectionMoved ==> MoveSection(m.0, m.1) in ops)
  {
    ElementOpsOrdered(cs);
    var sm := SectionMoves<C>(cs.sectionMoved);
    assert RanksWithin(sm, 4, 4);
    NotInRankedRun(DeleteSections(cs.sectionDeleted), ElementOps(cs), 5, 8);
    NotInRankedRun(InsertSections(cs.sectionInserted), ElementOps(cs), 5, 8);
    NotInRankedRun(ReloadSections(cs.sectionUpdated), ElementOps(cs), 5, 8);
    NotInRankedRun(DeleteSections(cs.sectionDeleted), sm, 4, 4);
    NotInRankedRun(InsertSections(cs.sectionInserted), sm, 4, 4);
    NotInRankedRun(ReloadSections(cs.sectionUpdated), sm, 4, 4);
    forall m | m in cs.sectionMoved
      ensures MoveSection(m.0, m.1) in BatchOps(cs)
    {
      SectionMovesPresent<C>(cs.sectionMoved, m);
    }
  }

  /**
   * An element delete, insert or update call is made iff its list is
   * non-empty, and every element move gets its move call.
   */
  lemma ElementOpsPresence<C>(cs: Changeset<C>)
    ensures var ops := BatchOps(cs);
      (DeleteItems(cs.elementDeleted) in ops <==> |cs.elementDeleted| > 0) &&
      (InsertItems(cs.elementInserted) in ops <==> |cs.elementInserted| > 0) &&
      (ReloadItems(cs.elementUpdated) in ops <==> |cs.elementUpdated| > 0) &&
      (forall m :: m in cs.elementMoved ==> MoveItem(m.0, m.1) in ops)
  {
    SectionOpsOrdered(cs);
    var im := ItemMoves<C>(cs.elementMoved);
    assert RanksWithin(im, 8, 8);
    NotInRankedRun(DeleteItems(cs.elementDeleted), SectionOps(cs), 1, 4);
    NotInRankedRun(InsertItems(cs.elementInserted), SectionOps(cs), 1, 4);
    NotInRankedRun(ReloadItems(cs.elementUpdated), SectionOps(cs), 1, 4);
    NotInRankedRun(DeleteItems(cs.elementDeleted), im, 8, 8);
    NotInRankedRun(InsertItems(cs.elementInserted), im, 8, 8);
    NotInRankedRun(ReloadItems(cs.elementUpdated), im, 8, 8);
    forall m | m in cs.elementMoved
      ensures MoveItem(m.0, m.1) in BatchOps(cs)
    {
      ItemMovesPresent<C>(cs.elementMoved, m);
    }
  }

  /** The fallback used when there is no window or a stage interrupts. */
  function FullReload<C>(data: C, hasOnInterruptedReload: bool, hasCompletion: bool): seq<ViewOp<C>> {
    [SetData(data), if hasOnInterruptedReload then InterruptedReload else ReloadData] +
    (if hasCompletion then [Completion(false)] else [])
  }

  function Interrupts<C>(interrupt: Option<Changeset<C> -> bool>, cs: Changeset<C>): bool {
    interrupt.Some? && interrupt.value(cs)
  }

  /** The replay of the stages from index `i` on. */
  function ReplayFrom<C>(staged: seq<Changeset<C>>, i: nat, interrupt: Option<Changeset<C> -> bool>,
                         hasOnInterruptedReload: bool, hasCompletion: bool): seq<ViewOp<C>>
    requires i <= |staged|
    decreases |staged| - i
  {
    if i == |staged| then (if hasCompletion then [Completion(true)] else [])
    else if Interrupts(interrupt, staged[i]) then FullReload(LastStage(staged).data, hasOnInterruptedReload, hasCompletion)
    else [PerformBatch(staged[i])] + ReplayFrom(staged, i + 1, interrupt, hasOnInterruptedReload, hasCompletion)
  }

  /** What `reload(using:interrupt:onInterruptedReload:completion:setData:)` does. */
  function ReloadTrace<C>(staged: seq<Changeset<C>>, hasWindow: bool, interrupt: Option<Changeset<C> -> bool>,
                          hasOnInterruptedReload: bool, hasCompletion: bool): seq<ViewOp<C>>
  {
    if !hasWindow && |staged| > 0 then FullReload(LastStage(staged).data, hasOnInterruptedReload, hasCompletion)
    else ReplayFrom(staged, 0, interrupt, hasOnInterruptedReload, hasCompletion)
  }

  /** `UICollectionView.reload(using:…)`: the loop over the stages with its early return. */
  method Reload<C>(staged: seq<Changeset<C>>, hasWindow: bool, interrupt: Option<Changeset<C> -> bool>,
                   hasOnInterruptedReload: bool, hasCompletion: bool) returns (trace: seq<ViewOp<C>>)
    ensures trace == ReloadTrace(staged, hasWindow, interrupt, hasOnInterruptedReload, hasCompletion)
  {
    if !hasWindow && |staged| > 0 {
      trace := FallBack(LastStage(staged).data, hasOnInterruptedReload, hasCompletion);
      return;
    }
    trace := [];
    var i := 0;
    while i < |staged|
      invariant 0 <= i <= |staged|
      invariant ReplayFrom(staged, 0, interrupt, hasOnInterruptedReload, hasCompletion) ==
                trace + ReplayFrom(staged, i, interrupt, hasOnInterruptedReload, hasCompletion)
    {
      var changeset := staged[i];
      if Interrupts(interrupt, changeset) {
        var ops := FallBack(LastStage(staged).data, hasOnInterruptedReload, hasCompletion);
        assert ReplayFrom(staged, i, interrupt, hasOnInterruptedReload, hasCompletion) == ops;
        trace := trace + ops;
        return;
      }
      ghost var rest := ReplayFrom(staged, i + 1, interrupt, hasOnInterruptedReload, hasCompletion);
      assert ReplayFrom(staged, i, interrupt, hasOnInterruptedReload, hasCompletion) == [PerformBatch(changeset)] + rest;
      AppendAssoc(trace, [PerformBatch(changeset)], rest);
      trace := trace + [PerformBatch(changeset)];
      i := i + 1;
    }
    if hasCompletion {
      trace := trace + [Completion(true)];
    }
  }

  /** Setting the final data, reloading everything and reporting failure. */
  method FallBack<C>(data: C, hasOnInterruptedReload: bool, hasCompletion: bool) returns (ops: seq<ViewOp<C>>)
    ensures ops == FullReload(data, hasOnInterruptedReload, hasCompletion)
  {
    ops := [SetData(data)];
    ops := ops + [if hasOnInterruptedReload then InterruptedReload else ReloadData];
    if hasCompletion {
      ops := ops + [Completion(false)];
    }
  }

  // ------------------------------------------------------ replay properties

  /** One batch per stage, in order. */
  function Batches<C>(staged: seq<Changeset<C>>): (r: seq<ViewOp<C>>)
    ensures |r| == |staged|
    ensures forall i :: 0 <= i < |r| ==> r[i] == PerformBatch(staged[i])
  {
    seq(|staged|, i requires 0 <= i < |staged| => PerformBatch(staged[i]))
  }

  /** The replay from `i` when stage `k` is the first to interrupt, or none does (`k == |staged|`). */
  lemma {:induction false} ReplayFromShape<C>(staged: seq<Changeset<C>>, i: nat, k: nat,
                                              interrupt: Option<Changeset<C> -> bool>,
                                              hasOnInterruptedReload: bool, hasCompletion: bool)
    requires i <= k <= |staged|
    requires forall j :: i <= j < k ==> !Interrupts(interrupt, staged[j])
    requires k < |staged| ==> Interrupts(interrupt, staged[k])
    ensures ReplayFrom(staged, i, interrupt, hasOnInterruptedReload, hasCompletion) ==
      Batches(staged[i..k]) +
      (if k < |staged| then FullReload(LastStage(staged).data, hasOnInterruptedReload, hasCompletion)
       else if hasCompletion then [Completion(true)] else [])
    decreases k - i
  {
    if i < k {
      ReplayFromShape(staged, i + 1, k, interrupt, hasOnInterruptedReload, hasCompletion);
      BatchesCons(staged[i..k]);
      assert staged[i..k][1..] == staged[i + 1..k];
      AppendAssoc([PerformBatch(staged[i])], Batches(staged[i + 1..k]),
        if k < |staged| then FullReload(LastStage(staged).data, hasOnInterruptedReload, hasCompletion)
        else if hasCompletion then [Completion(true)] else []);
    }
  }

  lemma BatchesCons<C>(s: seq<Changeset<C>>)
    requires |s| > 0
    ensures Batches(s) == [PerformBatch(s[0])] + Batches(s[1..])
  {
    assert Batches(s)[1..] == Batches(s[1..]);
  }

  lemma AppendAssoc<T>(a: seq<T>, b: seq<T>, c: seq<T>)
    ensures a + (b + c) == (a + b) + c
  {
  }

  /**
   * With no window and at least one stage, the final snapshot is set and the
   * view fully reloaded (through `onInterruptedReload` when given), the
   * completion reports `false`, and no batch runs.
   */
  lemma ReloadWithoutWindow<C>(staged: seq<Changeset<C>>, interrupt: Option<Changeset<C> -> bool>,
                               hasOnInterruptedReload: bool, hasCompletion: bool)
    requires |staged| > 0
    ensures var t := ReloadTrace(staged, false, interrupt, hasOnInterruptedReload, hasCompletion);
      t[0] == SetData(LastStage(staged).data) &&
      t[1] == (if hasOnInterruptedReload then InterruptedReload else ReloadData) &&
      (hasCompletion ==> t == t[..2] + [Completion(false)]) &&
      (!hasCompletion ==> |t| == 2)
  {
  }

  /**
   * When stage `k` is the first to interrupt, the stages before it run as
   * batches in order, then the final snapshot is set, the view fully
   * reloaded and the completion reports `false`; later stages never run.
   */
  lemma ReloadInterrupted<C>(staged: seq<Changeset<C>>, k: nat, interrupt: Option<Changeset<C> -> bool>,
                             hasOnInterruptedReload: bool, hasCompletion: bool)
    requires k < |staged|
    requires forall j :: 0 <= j < k ==> !Interrupts(interrupt, staged[j])
    requires Interrupts(interrupt, staged[k])
    ensures ReloadTrace(staged, true, interrupt, hasOnInterruptedReload, hasCompletion) ==
      Batches(staged[..k]) + FullReload(LastStage(staged).data, hasOnInterruptedReload, hasCompletion)
  {
    ReplayFromShape(staged, 0, k, interrupt, hasOnInterruptedReload, hasCompletion);
  }

  /**
   * Without interruption every stage runs as a batch, in order, and the
   * completion reports `true` after the last batch.
   */
  lemma ReloadUninterrupted<C>(staged: seq<Changeset<C>>, interrupt: Option<Changeset<C> -> bool>,
                               hasOnInterruptedReload: bool, hasCompletion: bool)
    requires forall j :: 0 <= j < |staged| ==> !Interrupts(interrupt, staged[j])
    ensures ReloadTrace(staged, true, interrupt, hasOnInterruptedReload, hasCompletion) ==
      Batches(staged) + (if hasCompletion then [Completion(true)] else [])
  {
    ReplayFromShape(staged, 0, |staged|, interrupt, hasOnInterruptedReload, hasCompletion);
    assert staged[0..|staged|] == staged;
  }

  /** The data the view holds after a trace: the last data set, if any. */
  function LastDataSet<C>(t: seq<ViewOp<C>>): Option<C> {
    if |t| == 0 then None
    else
      match t[|t| - 1]
      case SetData(d) => Some(d)
      case PerformBatch(cs) => Some(cs.data)  // the batch's first call, by `BatchOpsOrder`
      case _ => LastDataSet(t[..|t| - 1])
  }

  lemma {:induction false} LastDataSetAppendQuiet<C>(t: seq<ViewOp<C>>, u: seq<ViewOp<C>>)
    requires forall i :: 0 <= i < |u| ==> !u[i].SetData? && !u[i].PerformBatch?
    ensures LastDataSet(t + u) == LastDataSet(t)
    decreases |u|
  {
    if |u| > 0 {
      assert (t + u)[..|t + u| - 1] == t + u[..|u| - 1];
      LastDataSetAppendQuiet(t, u[..|u| - 1]);
    } else {
      assert t + u == t;
    }
  }

  /** Completion, when there is one, is the last call of `t` and the only one. */
  predicate CompletesOnceAtEnd<C>(t: seq<ViewOp<C>>, hasCompletion: bool) {
    |t| > 0 &&
    (hasCompletion <==> t[|t| - 1].Completion?) &&
    (forall i :: 0 <= i < |t| - 1 ==> !t[i].Completion?)
  }

  lemma FullReloadEnds<C>(last: C, hasOnInterruptedReload: bool, hasCompletion: bool)
    ensures var fb := FullReload(last, hasOnInterruptedReload, hasCompletion);
      LastDataSet(fb) == Some(last) && CompletesOnceAtEnd(fb, hasCompletion)
  {
    var fb := FullReload(last, hasOnInterruptedReload, hasCompletion);
    var r: ViewOp<C> := if hasOnInterruptedReload then InterruptedReload else ReloadData;
    assert LastDataSet([SetData(last), r]) == Some(last) by {
      assert [SetData(last), r][..1] == [SetData(last)];
    }
    if hasCompletion {
      assert fb[..2] == [SetData(last), r];
    } else {
      assert fb == [SetData(last), r];
    }
  }

  lemma BatchesThenEnds<C>(b: seq<Changeset<C>>, tail: seq<ViewOp<C>>, hasCompletion: bool)
    requires CompletesOnceAtEnd(tail, hasCompletion)
    ensures CompletesOnceAtEnd(Batches(b) + tail, hasCompletion)
  {
  }

  /**
   * Whatever path `reload` takes, with at least one stage the last data
   * handed to `setData` is the final stage's data, and the completion, when
   * there is one, is called exactly once, at the very end.
   */
  lemma ReloadEndsOnFinalData<C>(staged: seq<Changeset<C>>, hasWindow: bool, interrupt: Option<Changeset<C> -> bool>,
                                 hasOnInterruptedReload: bool, hasCompletion: bool)
    requires |staged| > 0
    ensures var t := ReloadTrace(staged, hasWindow, interrupt, hasOnInterruptedReload, hasCompletion);
      LastDataSet(t) == Some(LastStage(staged).data) && CompletesOnceAtEnd(t, hasCompletion)
  {
    var last := LastStage(staged).data;
    var fb := FullReload(last, hasOnInterruptedReload, hasCompletion);
    FullReloadEnds(last, hasOnInterruptedReload, hasCompletion);
    if hasWindow {
      var k := FirstInterrupt(staged, interrupt);
      if k < |staged| {
        ReloadInterrupted(staged, k, interrupt, hasOnInterruptedReload, hasCompletion);
        LastDataSetAppendPrefix(Batches(staged[..k]), fb);
        BatchesThenEnds(staged[..k], fb, hasCompletion);
      } else {
        ReloadUninterrupted(staged, interrupt, hasOnInterruptedReload, hasCompletion);
        var b := Batches(staged);
        var tail: seq<ViewOp<C>> := if hasCompletion then [Completion(true)] else [];
        LastDataSetAppendQuiet(b, tail);
        assert b[..|b| - 1] + [b[|b| - 1]] == b;
        assert LastDataSet(b) == Some(last);
        if hasCompletion {
          BatchesThenEnds(staged, tail, hasCompletion);
        }
      }
    }
  }

  lemma LastDataSetAppendPrefix<C>(t: seq<ViewOp<C>>, u: seq<ViewOp<C>>)
    requires LastDataSet(u).Some?
    ensures LastDataSet(t + u) == LastDataSet(u)
    decreases |u|
  {
    assert (t + u)[..|t + u| - 1] == t + u[..|u| - 1];
  }

  /** Index of the first interrupting stage, or the number of stages. */
  function FirstInterrupt<C>(staged: seq<Changeset<C>>, interrupt: Option<Changeset<C> -> bool>): (k: nat)
    ensures k <= |staged|
    ensures forall j :: 0 <= j < k ==> !Interrupts(interrupt, staged[j])
    ensures k < |staged| ==> Interrupts(interrupt, staged[k])
  {
    if |staged| == 0 then 0
    else if Interrupts(interrupt, staged[0]) then 0
    else 1 + FirstInterrupt(staged[1..], interrupt)
  }
}
