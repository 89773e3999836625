/**
 * The kind taxonomy: the denormalised ancestor array of every kind and the
 * queue-driven builder that fills it (src/services.py:194-233).
 */
module Taxonomy {
  import opened Wrappers
  import opened Records

  /** A node of the forest to load: a name and its child groups (the list `[name, child, child, ...]`). */
  datatype KindTree = KindTree(name: string, children: seq<KindTree>)

  /** An entry of `kinds_to_process`: a node still to create and the id of its parent, if any. */
  datatype Pending = Pending(node: KindTree, parent: Option<int>)

  /** Number of nodes in a forest. */
  function ForestSize(ts: seq<KindTree>): nat
    decreases ts
  {
    if ts == [] then 0 else 1 + ForestSize(ts[0].children) + ForestSize(ts[1..])
  }

  /** Number of nodes still to create, counting the subtrees below every queue entry. */
  function PendingSize(q: seq<Pending>): nat
  {
    if q == [] then 0 else 1 + ForestSize(q[0].node.children) + PendingSize(q[1..])
  }

  /** The nodes `ts`, each queued with the same parent. */
  function Enqueue(ts: seq<KindTree>, parent: Option<int>): seq<Pending>
  {
    seq(|ts|, i requires 0 <= i < |ts| => Pending(ts[i], parent))
  }

  lemma {:induction false} PendingSizeAppend(a: seq<Pending>, b: seq<Pending>)
    ensures PendingSize(a + b) == PendingSize(a) + PendingSize(b)
  {
    if a != [] {
      assert (a + b)[1..] == a[1..] + b;
      PendingSizeAppend(a[1..], b);
    } else {
      assert a + b == b;
    }
  }

  lemma {:induction false} EnqueueSize(ts: seq<KindTree>, parent: Option<int>)
    ensures PendingSize(Enqueue(ts, parent)) == ForestSize(ts)
  {
    if ts != [] {
      assert Enqueue(ts, parent)[1..] == Enqueue(ts[1..], parent);
      EnqueueSize(ts[1..], parent);
    }
  }

  /**
   * The order in which a FIFO queue `q` is drained when creating an entry
   * (which receives id `nextId`) appends its children, tagged with that id,
   * at the back of the queue.
   */
  function BfsFrom(q: seq<Pending>, nextId: int): seq<Pending>
    decreases PendingSize(q)
  {
    if q == [] then []
    else
      var rest := q[1..] + Enqueue(q[0].node.children, Some(nextId));
      PendingSizeAppend(q[1..], Enqueue(q[0].node.children, Some(nextId)));
      EnqueueSize(q[0].node.children, Some(nextId));
      [q[0]] + BfsFrom(rest, nextId + 1)
  }

  /** The creation order of the builder: the roots queued without a parent, ids counted from 1. */
  function LevelOrder(forest: seq<KindTree>): seq<Pending>
  {
    BfsFrom(Enqueue(forest, None), 1)
  }

  /**
   * The children of the entries of `order`, in order: those of `order[0]`
   * tagged with parent `firstId`, then those of `order[1]` tagged with
   * `firstId + 1`, and so on.
   */
  function Expand(order: seq<Pending>, firstId: int): seq<Pending>
  {
    if order == [] then []
    else Enqueue(order[0].node.children, Some(firstId)) + Expand(order[1..], firstId + 1)
  }

  /** Draining the queue visits every node below its entries exactly once. */
  lemma {:induction false} BfsFromLength(q: seq<Pending>, nextId: int)
    ensures |BfsFrom(q, nextId)| == PendingSize(q)
    decreases PendingSize(q)
  {
    if q != [] {
      var rest := q[1..] + Enqueue(q[0].node.children, Some(nextId));
      PendingSizeAppend(q[1..], Enqueue(q[0].node.children, Some(nextId)));
      EnqueueSize(q[0].node.children, Some(nextId));
      BfsFromLength(rest, nextId + 1);
    }
  }

  /**
   * FIFO shape of the drain order: it starts with the queue as given and
   * continues with the children of each drained entry, tagged with that
   * entry's id, in the order the entries were drained.
   */
  lemma {:induction false} BfsFromShape(q: seq<Pending>, nextId: int)
    ensures BfsFrom(q, nextId) == q + Expand(BfsFrom(q, nextId), nextId)
    decreases PendingSize(q)
  {
    if q != [] {
      var kids := Enqueue(q[0].node.children, Some(nextId));
      var rest := q[1..] + kids;
      PendingSizeAppend(q[1..], kids);
      EnqueueSize(q[0].node.children, Some(nextId));
      var r := BfsFrom(rest, nextId + 1);
      BfsFromShape(rest, nextId + 1);
      var order := BfsFrom(q, nextId);
      assert order == [q[0]] + r;
      assert order[1..] == r;
      assert Expand(order, nextId) == kids + Expand(r, nextId + 1);
      assert q == [q[0]] + q[1..];
    }
  }

  /**
   * The builder's order, characterised without the queue: every node of
   * the forest once; the roots first, in list order and without a parent;
   * then the children of the kind created first (id 1) in list order, then
   * those of the kind created second (id 2), and so on.
   */
  lemma LevelOrderShape(forest: seq<KindTree>)
    ensures |LevelOrder(forest)| == ForestSize(forest)
    ensures LevelOrder(forest) == Enqueue(forest, None) + Expand(LevelOrder(forest), 1)
  {
    BfsFromLength(Enqueue(forest, None), 1);
    EnqueueSize(forest, None);
    BfsFromShape(Enqueue(forest, None), 1);
  }

  /**
   * The ancestor array of kind `j` (whose id is `j + 1`): empty for a root,
   * otherwise the parent's id followed by the parent's own ancestor array;
   * the parent was created earlier.
   */
  predicate ParentChainAt(kinds: seq<Kind>, j: int)
    requires 0 <= j < |kinds|
  {
    match kinds[j].parentId
    case None => kinds[j].parentIds == []
    case Some(p) => 1 <= p <= j && kinds[j].parentIds == [p] + kinds[p - 1].parentIds
  }

  /** The kinds table as the builder leaves it: ids 1, 2, ... in order, every ancestor array consistent. */
  predicate Consistent(kinds: seq<Kind>)
  {
    && (forall j :: 0 <= j < |kinds| ==> kinds[j].id == j + 1)
    && (forall j {:trigger ParentChainAt(kinds, j)} :: 0 <= j < |kinds| ==> ParentChainAt(kinds, j))
  }

  /**
   * What the ancestor array of a consistent table holds: empty exactly for
   * a root; otherwise it starts with the parent's id, each id in it is the
   * parent of the one before, and it ends with a root. All of them belong to
   * kinds created earlier.
   */
  lemma {:induction false} AncestorChain(kinds: seq<Kind>, j: int)
    requires Consistent(kinds) && 0 <= j < |kinds|
    ensures kinds[j].parentIds == [] <==> kinds[j].parentId.None?
    ensures kinds[j].parentId.Some? ==> kinds[j].parentIds[0] == kinds[j].parentId.value
    ensures forall m :: 0 <= m < |kinds[j].parentIds| ==> 1 <= kinds[j].parentIds[m] <= j
    ensures forall m :: 0 <= m < |kinds[j].parentIds| - 1 ==>
              kinds[kinds[j].parentIds[m] - 1].parentId == Some(kinds[j].parentIds[m + 1])
    ensures kinds[j].parentIds != [] ==> kinds[kinds[j].parentIds[|kinds[j].parentIds| - 1] - 1].parentId.None?
  {
    assert ParentChainAt(kinds, j);
    if kinds[j].parentId.Some? {
      var p := kinds[j].parentId.value;
      var up := kinds[p - 1].parentIds;
      AncestorChain(kinds, p - 1);
      assert kinds[j].parentIds == [p] + up;
      forall m | 0 <= m < |kinds[j].parentIds| - 1
        ensures kinds[kinds[j].parentIds[m] - 1].parentId == Some(kinds[j].parentIds[m + 1])
      {
        if m > 0 {
          assert kinds[j].parentIds[m] == up[m - 1];
        }
      }
    }
  }

  /**
   * The descendant relation defined by `parent_id` links alone: a kind
   * descends from `t` when it is `t` or its parent descends from `t`.
   */
  predicate DescendsFrom(kinds: seq<Kind>, j: int, t: int)
    requires 0 <= j < |kinds|
    decreases j
  {
    || kinds[j].id == t
    || (kinds[j].parentId.Some? && 1 <= kinds[j].parentId.value <= j
        && DescendsFrom(kinds, kinds[j].parentId.value - 1, t))
  }

  /**
   * The denormalised array answers the recursive question in one step: in a
   * consistent table a kind is `t` or has `t` among its ancestor ids exactly
   * when it descends from `t` along `parent_id` links.
   */
  lemma {:induction false} AncestorArrayIsClosure(kinds: seq<Kind>, j: int, t: int)
    requires Consistent(kinds) && 0 <= j < |kinds|
    ensures (kinds[j].id == t || t in kinds[j].parentIds) <==> DescendsFrom(kinds, j, t)
    decreases j
  {
    assert ParentChainAt(kinds, j);
    if kinds[j].parentId.Some? {
      var p := kinds[j].parentId.value;
      AncestorArrayIsClosure(kinds, p - 1, t);
      assert kinds[p - 1].id == p;
      assert t in kinds[j].parentIds <==> t == p || t in kinds[p - 1].parentIds;
    }
  }

  /** The ancestor array a new kind with parent `p` receives, given the kinds created so far. */
  function Chain(kinds: seq<Kind>, p: Option<int>): seq<int>
    requires p.None? || 1 <= p.value <= |kinds|
  {
    match p
    case None => []
    case Some(q) => [q] + kinds[q - 1].parentIds
  }

  /**
   * One step of the drain: taking entry `i` off the queue and appending its
   * children (tagged with id `i + 1`) keeps the already drained prefix
   * followed by the drain order of what is left equal to `order`, and
   * removes exactly one node from what is left.
   */
  lemma DrainStep(queue: seq<Pending>, i: nat, order: seq<Pending>)
    requires i < |queue|
    requires queue[..i] + BfsFrom(queue[i..], i + 1) == order
    ensures var queue' := queue + Enqueue(queue[i].node.children, Some(i + 1));
            && queue'[..i + 1] + BfsFrom(queue'[i + 1..], i + 2) == order
            && PendingSize(queue'[i + 1..]) < PendingSize(queue[i..])
  {
    var kids := Enqueue(queue[i].node.children, Some(i + 1));
    var queue' := queue + kids;
    assert queue[i..][1..] + kids == queue'[i + 1..];
    assert queue'[..i + 1] == queue[..i] + [queue[i]];
    PendingSizeAppend(queue[i + 1..], kids);
    EnqueueSize(queue[i].node.children, Some(i + 1));
    assert queue[i..][1..] == queue[i + 1..];
  }

  /** Appending a kind whose ancestor array is its parent's chain keeps the table consistent. */
  lemma ConsistentAppend(kinds: seq<Kind>, kind: Kind)
    requires Consistent(kinds)
    requires kind.id == |kinds| + 1
    requires kind.parentId.None? || 1 <= kind.parentId.value <= |kinds|
    requires kind.parentIds == Chain(kinds, kind.parentId)
    ensures Consistent(kinds + [kind])
  {
    var kinds' := kinds + [kind];
    forall j | 0 <= j < |kinds'|
      ensures kinds'[j].id == j + 1 && ParentChainAt(kinds', j)
    {
      if j < |kinds| {
        assert ParentChainAt(kinds, j);
      }
    }
  }

  /** `parents_by_kind` as it stands once `kinds` are created: each id mapped to its parent id. */
  function ParentsByKind(kinds: seq<Kind>): map<int, Option<int>>
  {
    map id | 1 <= id <= |kinds| :: ParentOf(kinds, id)
  }

  /** Recording a new kind in `parents_by_kind` is what creating it does to the map. */
  lemma ParentsByKindAppend(kinds: seq<Kind>, kind: Kind)
    ensures ParentsByKind(kinds + [kind]) == ParentsByKind(kinds)[|kinds| + 1 := kind.parentId]
  {
    var kinds' := kinds + [kind];
    forall id | 1 <= id <= |kinds|
      ensures ParentOf(kinds', id) == ParentOf(kinds, id)
    {
      assert kinds'[id - 1] == kinds[id - 1];
    }
  }

  /** The parent id of the kind with id `id`. */
  function ParentOf(kinds: seq<Kind>, id: int): Option<int>
    requires 1 <= id <= |kinds|
  {
    kinds[id - 1].parentId
  }

  /** Every id in the parent map is positive and points to a smaller id or to no parent. */
  predicate ParentsPrecede(m: map<int, Option<int>>)
  {
    forall id :: id in m ==> 1 <= id && (m[id].None? || 1 <= m[id].value < id)
  }

  function Height(p: Option<int>): nat
  {
    if p.Some? && p.value >= 0 then p.value else 0
  }

  /** The ids met when following the parent map upwards from `p`, until an id without an entry or no parent. */
  function Walk(m: map<int, Option<int>>, p: Option<int>): seq<int>
    requires ParentsPrecede(m)
    decreases Height(p)
  {
    if p.Some? && p.value in m then [p.value] + Walk(m, m[p.value]) else []
  }

  /**
   * The inner loop of the builder: follow `parents_by_kind` upwards from
   * `parent`, collecting every id met, until a root (a `None` parent) is
   * reached. The ids come out nearest parent first.
   */
  method WalkUp(parentsByKind: map<int, Option<int>>, parent: Option<int>) returns (parentIds: seq<int>)
    requires ParentsPrecede(parentsByKind)
    ensures parentIds == Walk(parentsByKind, parent)
  {
    parentIds := [];
    var p := parent;
    while p.Some? && p.value in parentsByKind
      invariant parentIds + Walk(parentsByKind, p) == Walk(parentsByKind, parent)
      decreases Height(p)
    {
      assert (parentIds + [p.value]) + Walk(parentsByKind, parentsByKind[p.value])
          == parentIds + Walk(parentsByKind, p);
      parentIds := parentIds + [p.value];
      p := parentsByKind[p.value];
    }
  }

  /** In the parent map of a consistent kinds table every parent id is smaller than its child's id. */
  lemma ConsistentParentsPrecede(kinds: seq<Kind>)
    requires Consistent(kinds)
    ensures ParentsPrecede(ParentsByKind(kinds))
  {
    var m := ParentsByKind(kinds);
    forall id | id in m
      ensures 1 <= id && (m[id].None? || 1 <= m[id].value < id)
    {
      assert ParentChainAt(kinds, id - 1);
    }
  }

  /** The parent map the builder keeps mirrors a consistent kinds table, so walking it yields the ancestor chain. */
  lemma {:induction false} WalkIsChain(kinds: seq<Kind>, p: Option<int>)
    requires Consistent(kinds)
    requires p.None? || 1 <= p.value <= |kinds|
    ensures ParentsPrecede(ParentsByKind(kinds))
    ensures Walk(ParentsByKind(kinds), p) == Chain(kinds, p)
    decreases Height(p)
  {
    ConsistentParentsPrecede(kinds);
    if p.Some? {
      var q := p.value;
      assert ParentsByKind(kinds)[q] == kinds[q - 1].parentId;
      assert ParentChainAt(kinds, q - 1);
      WalkIsChain(kinds, kinds[q - 1].parentId);
    }
  }

  /**
   * The state of the builder after `i` entries of `queue` are created: the
   * drained prefix followed by the drain order of the rest is `order`, the
   * created kinds copy the drained entries and form a consistent table,
   * every pending entry's parent is already created, and the parent map
   * mirrors the table.
   */
  ghost predicate Built(queue: seq<Pending>, i: nat, kinds: seq<Kind>, parentsByKind: map<int, Option<int>>,
                        order: seq<Pending>)
  {
    && i <= |queue| && |kinds| == i
    && queue[..i] + BfsFrom(queue[i..], i + 1) == order
    && (forall j :: 0 <= j < i ==> kinds[j].name == queue[j].node.name && kinds[j].parentId == queue[j].parent)
    && (forall j :: i <= j < |queue| ==> queue[j].parent.None? || 1 <= queue[j].parent.value <= i)
    && Consistent(kinds)
    && parentsByKind == ParentsByKind(kinds)
  }

  /** Creating the kind for entry `i`, with its parent's chain as ancestor array, keeps the builder's state. */
  lemma BuildStep(queue: seq<Pending>, i: nat, kinds: seq<Kind>, parentsByKind: map<int, Option<int>>,
                  order: seq<Pending>, kind: Kind)
    requires Built(queue, i, kinds, parentsByKind, order) && i < |queue|
    requires kind == Kind(i + 1, queue[i].node.name, queue[i].parent, Chain(kinds, queue[i].parent))
    ensures var queue' := queue + Enqueue(queue[i].node.children, Some(i + 1));
            && Built(queue', i + 1, kinds + [kind], parentsByKind[i + 1 := kind.parentId], order)
            && PendingSize(queue'[i + 1..]) < PendingSize(queue[i..])
  {
    var queue' := queue + Enqueue(queue[i].node.children, Some(i + 1));
    var kinds' := kinds + [kind];
    ConsistentAppend(kinds, kind);
    DrainStep(queue, i, order);
    ParentsByKindAppend(kinds, kind);
    forall j | 0 <= j <= i
      ensures kinds'[j].name == queue'[j].node.name && kinds'[j].parentId == queue'[j].parent
    {
      assert queue'[j] == queue[j];
      if j < i {
        assert kinds'[j] == kinds[j];
      }
    }
  }

  /**
   * The loop of `fill_db_with_initial_data` that creates the kinds: a queue
   * of (node, parent id) entries, appended to while it is drained; a map
   * from each created id to its parent id; an inner loop that walks that map
   * upwards to collect the ancestor array. Ids come from a counter in place
   * of the database's autoincrement.
   */
  method BuildTaxonomy(forest: seq<KindTree>) returns (kinds: seq<Kind>)
    ensures |kinds| == |LevelOrder(forest)|
    ensures forall j :: 0 <= j < |kinds| ==>
              kinds[j].name == LevelOrder(forest)[j].node.name && kinds[j].parentId == LevelOrder(forest)[j].parent
    ensures Consistent(kinds)
  {
    ghost var order := LevelOrder(forest);
    var queue := Enqueue(forest, None);
    var parentsByKind: map<int, Option<int>> := map[];
    var nextId := 1;
    kinds := [];
    var i := 0;
    assert queue[..0] + BfsFrom(queue[0..], 1) == order by {
      assert queue[0..] == queue;
    }
    while i < |queue|
      invariant Built(queue, i, kinds, parentsByKind, order)
      invariant nextId == i + 1
      decreases PendingSize(queue[i..])
    {
      var item := queue[i];
      WalkIsChain(kinds, item.parent);
      var parentIds := WalkUp(parentsByKind, item.parent);
      var kind := Kind(nextId, item.node.name, item.parent, parentIds);
      BuildStep(queue, i, kinds, parentsByKind, order, kind);
      kinds := kinds + [kind];
      parentsByKind := parentsByKind[kind.id := kind.parentId];
      queue := queue + Enqueue(item.node.children, Some(kind.id));
      nextId := nextId + 1;
      i := i + 1;
    }
    assert queue[i..] == [];
    assert queue[..i] == queue;
  }

  /** The forest loaded at start-up (src/services.py:194-209). */
  function SeedForest(): seq<KindTree>
  {
    [ KindTree("Еда", [KindTree("Мясная продукция", []), KindTree("Молочная продукция", [])]),
      KindTree("Автомобили", [
        KindTree("Грузовые", []),
        KindTree("Легковые", [KindTree("Запчасти", []), KindTree("Аксессуары", [])])])]
  }

  /** The creation order of the seed forest: roots first, then children level by level, in list order. */
  lemma SeedLevelOrder()
    ensures |LevelOrder(SeedForest())| == 8
    ensures forall j :: 0 <= j < 8 ==>
              (LevelOrder(SeedForest())[j].node.name
               == ["Еда", "Автомобили", "Мясная продукция", "Молочная продукция",
                   "Грузовые", "Легковые", "Запчасти", "Аксессуары"][j])
    ensures forall j :: 0 <= j < 8 ==>
              (LevelOrder(SeedForest())[j].parent
               == [None, None, Some(1), Some(1), Some(2), Some(2), Some(6), Some(6)][j])
  {
    var f := SeedForest();
    var food, cars := f[0], f[1];
    var meat, milk := food.children[0], food.children[1];
    var trucks, passenger := cars.children[0], cars.children[1];
    var q0 := Enqueue(f, None);
    assert q0 == [Pending(food, None), Pending(cars, None)];
    var q1 := q0[1..] + Enqueue(food.children, Some(1));
    assert q1 == [Pending(cars, None), Pending(meat, Some(1)), Pending(milk, Some(1))];
    var q2 := q1[1..] + Enqueue(cars.children, Some(2));
    assert q2 == [Pending(meat, Some(1)), Pending(milk, Some(1)), Pending(trucks, Some(2)), Pending(passenger, Some(2))];
    var q3 := q2[1..] + Enqueue(meat.children, Some(3));
    assert q3 == q2[1..];
    var q4 := q3[1..] + Enqueue(milk.children, Some(4));
    assert q4 == [Pending(trucks, Some(2)), Pending(passenger, Some(2))];
    var tail := SeedDrainTail();
    assert BfsFrom(q3, 4) == [q3[0]] + tail;
    assert BfsFrom(q2, 3) == [q2[0], q3[0]] + tail;
    assert BfsFrom(q1, 2) == [q1[0], q2[0], q3[0]] + tail;
    assert BfsFrom(q0, 1) == [q0[0], q1[0], q2[0], q3[0]] + tail;
  }

  /** The last four kinds the seed forest creates: Грузовые, Легковые and the two children of Легковые. */
  lemma SeedDrainTail() returns (tail: seq<Pending>)
    ensures var cars := SeedForest()[1];
            var trucks, passenger := cars.children[0], cars.children[1];
            && tail == BfsFrom([Pending(trucks, Some(2)), Pending(passenger, Some(2))], 5)
            && tail == [Pending(trucks, Some(2)), Pending(passenger, Some(2)),
                        Pending(passenger.children[0], Some(6)), Pending(passenger.children[1], Some(6))]
  {
    var cars := SeedForest()[1];
    var trucks, passenger := cars.children[0], cars.children[1];
    var parts, accessories := passenger.children[0], passenger.children[1];
    var q4 := [Pending(trucks, Some(2)), Pending(passenger, Some(2))];
    var q5 := q4[1..] + Enqueue(trucks.children, Some(5));
    assert q5 == [Pending(passenger, Some(2))];
    var q6 := q5[1..] + Enqueue(passenger.children, Some(6));
    assert q6 == [Pending(parts, Some(6)), Pending(accessories, Some(6))];
    var q7 := q6[1..] + Enqueue(parts.children, Some(7));
    assert q7 == [Pending(accessories, Some(6))];
    var q8 := q7[1..] + Enqueue(accessories.children, Some(8));
    assert q8 == [];
    assert BfsFrom(q8, 9) == [];
    assert BfsFrom(q7, 8) == [q7[0]];
    assert BfsFrom(q6, 7) == [q6[0], q7[0]];
    assert BfsFrom(q5, 6) == [q5[0], q6[0], q7[0]];
    tail := BfsFrom(q4, 5);
  }

  /**
   * The kinds table loading the seed forest produces: Еда=1, Автомобили=2,
   * Мясная продукция=3, Молочная продукция=4, Грузовые=5, Легковые=6,
   * Запчасти=7, Аксессуары=8; Запчасти gets the ancestor array [6, 2].
   */
  function SeedKinds(): seq<Kind>
  {
    [ Kind(1, "Еда", None, []),
      Kind(2, "Автомобили", None, []),
      Kind(3, "Мясная продукция", Some(1), [1]),
      Kind(4, "Молочная продукция", Some(1), [1]),
      Kind(5, "Грузовые", Some(2), [2]),
      Kind(6, "Легковые", Some(2), [2]),
      Kind(7, "Запчасти", Some(6), [6, 2]),
      Kind(8, "Аксессуары", Some(6), [6, 2]) ]
  }

  /** The seed kinds table is consistent. */
  lemma SeedKindsConsistent()
    ensures Consistent(SeedKinds())
  {
    var k := SeedKinds();
    assert ParentChainAt(k, 0) && ParentChainAt(k, 1) && ParentChainAt(k, 2) && ParentChainAt(k, 3);
    assert ParentChainAt(k, 4) && ParentChainAt(k, 5) && ParentChainAt(k, 6) && ParentChainAt(k, 7);
  }

  /** Loading the seed forest yields exactly the seed kinds table. */
  method BuildSeedTaxonomy() returns (kinds: seq<Kind>)
    ensures kinds == SeedKinds()
  {
    SeedLevelOrder();
    kinds := BuildTaxonomy(SeedForest());
    assert ParentChainAt(kinds, 0) && ParentChainAt(kinds, 1);
    assert kinds[0].parentIds == [] && kinds[1].parentIds == [];
    assert ParentChainAt(kinds, 2) && ParentChainAt(kinds, 3);
    assert ParentChainAt(kinds, 4) && ParentChainAt(kinds, 5);
    assert kinds[5].parentIds == [2];
    assert ParentChainAt(kinds, 6) && ParentChainAt(kinds, 7);
    assert forall j :: 0 <= j < 8 ==> kinds[j] == SeedKinds()[j];
  }
}
