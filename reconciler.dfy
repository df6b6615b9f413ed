/** `persistContentLinks`, sequentialised: diff the snapshot's content links
    against the recorded ones, issue one create per added key and one remove
    per removed key, then fold the create results into the entity table. */
module Reconciler {
  import opened Draft
  import opened Extractor
  import opened Diff

  /** A remote call the cycle issues: `addEdge(source, target, text)` or
      `removeEdge(edgeId)` (with `undefined` when the entity has no edge id). */
  datatype Call = AddEdge(source: NodeId, target: NodeId, text: string) | RemoveEdge(edgeId: Option<EdgeId>)

  /** Why a cycle's promise never delivers a content state. */
  datatype CycleError =
    | CreateFailed(key: EntityKey)   // a create's `.catch` yielded undefined and destructuring it threw
    | UnknownEntity(key: EntityKey)  // `getEntity` on a removed key the table does not hold threw

  datatype Result<+T> = Success(value: T) | Failure(error: CycleError)

  /** One `addEdge` per added key, in order, with the node and text from its data. */
  function AddCalls(docId: NodeId, table: map<EntityKey, Entity>, added: seq<EntityKey>): (r: seq<Call>)
    requires forall k :: k in added ==> k in table
    ensures |r| == |added|
    ensures forall i :: 0 <= i < |added| ==>
      r[i] == AddEdge(docId, table[added[i]].data.nodeId, table[added[i]].data.text)
  {
    if added == [] then []
    else [AddEdge(docId, table[added[0]].data.nodeId, table[added[0]].data.text)] + AddCalls(docId, table, added[1..])
  }

  /** One `removeEdge` per removed key, in order, whether or not it has an edge id. */
  function RemoveCalls(table: map<EntityKey, Entity>, removed: seq<EntityKey>): (r: seq<Call>)
    requires forall k :: k in removed ==> k in table
    ensures |r| == |removed|
    ensures forall j :: 0 <= j < |removed| ==> r[j] == RemoveEdge(table[removed[j]].data.edgeId)
  {
    if removed == [] then []
    else [RemoveEdge(table[removed[0]].data.edgeId)] + RemoveCalls(table, removed[1..])
  }

  /** The index of the first key the table does not hold, or `|ks|`. */
  function FirstMissing(table: map<EntityKey, Entity>, ks: seq<EntityKey>): (i: nat)
    ensures i <= |ks|
    ensures forall j :: 0 <= j < i ==> ks[j] in table
    ensures i < |ks| ==> ks[i] !in table
  {
    if ks == [] || ks[0] !in table then 0 else 1 + FirstMissing(table, ks[1..])
  }

  /** `pairs.reduce((cs, [k, e]) => cs.mergeEntityData(k, { edgeId: e }), table)`. */
  function MergeEdges(table: map<EntityKey, Entity>, pairs: seq<(EntityKey, EdgeId)>): (r: map<EntityKey, Entity>)
    requires forall j :: 0 <= j < |pairs| ==> pairs[j].0 in table
    ensures r.Keys == table.Keys
  {
    if pairs == [] then table
    else
      var n := |pairs|;
      var t := MergeEdges(table, pairs[..n - 1]);
      MergeEdgeId(t, pairs[n - 1].0, pairs[n - 1].1)
  }

  /** Reference definition: the edge id of the last pair naming `k`. */
  function LastEdge(pairs: seq<(EntityKey, EdgeId)>, k: EntityKey): Option<EdgeId>
  {
    if pairs == [] then None
    else if pairs[|pairs| - 1].0 == k then Some(pairs[|pairs| - 1].1)
    else LastEdge(pairs[..|pairs| - 1], k)
  }

  /** An entity with its edge id replaced by `e`, if there is one. */
  function Stamped(x: Entity, e: Option<EdgeId>): Entity
  {
    if e.Some? then x.(data := x.data.(edgeId := e)) else x
  }

  /** The merge fold gives each key the edge id of the last pair naming it, a
      later duplicate overwriting an earlier one, and leaves every other key
      and every other field as it was. */
  lemma {:induction false} MergeEdgesSpec(table: map<EntityKey, Entity>, pairs: seq<(EntityKey, EdgeId)>)
    requires forall j :: 0 <= j < |pairs| ==> pairs[j].0 in table
    ensures forall k :: k in table ==> MergeEdges(table, pairs)[k] == Stamped(table[k], LastEdge(pairs, k))
  {
    if pairs != [] {
      MergeEdgesSpec(table, pairs[..|pairs| - 1]);
    }
  }

  /** The pairs `(added[j], edgeId)` of the creates, all of which succeeded. */
  function Pairs(added: seq<EntityKey>, created: seq<Option<EdgeId>>): (r: seq<(EntityKey, EdgeId)>)
    requires |added| == |created|
    requires forall j :: 0 <= j < |created| ==> created[j].Some?
    ensures |r| == |added|
    ensures forall j :: 0 <= j < |r| ==> r[j].0 == added[j] && Some(r[j].1) == created[j]
  {
    if added == [] then []
    else
      var n := |added|;
      Pairs(added[..n - 1], created[..n - 1]) + [(added[n - 1], created[n - 1].value)]
  }

  /** The edge id a key ends up with is the create result of its last occurrence. */
  lemma {:induction false} LastEdgeOfPairs(added: seq<EntityKey>, created: seq<Option<EdgeId>>, k: EntityKey)
    requires |added| == |created|
    requires forall j :: 0 <= j < |created| ==> created[j].Some?
    ensures k !in added ==> LastEdge(Pairs(added, created), k) == None
    ensures forall j :: 0 <= j < |added| && added[j] == k && (forall j' :: j < j' < |added| ==> added[j'] != k) ==>
      LastEdge(Pairs(added, created), k) == created[j]
  {
    if added != [] {
      var n := |added|;
      LastEdgeOfPairs(added[..n - 1], created[..n - 1], k);
      assert Pairs(added, created)[..n - 1] == Pairs(added[..n - 1], created[..n - 1]);
      if added[n - 1] != k {
        assert k in added[..n - 1] <==> k in added;
      }
    }
  }

  /** What the `.then` over `Promise.all(addedPromises)` arrives at. */
  datatype MergeOutcome =
    | Merged(table: map<EntityKey, Entity>)
    | Broken(table: map<EntityKey, Entity>, at: nat)  // the fold threw at result `at`, after merging those before it

  /** The fold over the create results as the source runs it: results are taken
      left to right; a failed create (an undefined result) makes the fold throw
      at that point, after the merges before it have already been applied to
      the shared entity table. */
  function MergeResults(table: map<EntityKey, Entity>, added: seq<EntityKey>, created: seq<Option<EdgeId>>): (r: MergeOutcome)
    requires |added| == |created|
    requires forall k :: k in added ==> k in table
    ensures r.table.Keys == table.Keys
    ensures r.Merged? <==> forall j :: 0 <= j < |created| ==> created[j].Some?
    ensures r.Broken? ==> r.at < |created| && created[r.at].None? && (forall j :: 0 <= j < r.at ==> created[j].Some?)
  {
    if added == [] then Merged(table)
    else
      var n := |added|;
      assert forall k :: k in added[..n - 1] ==> k in added;
      var prefix := MergeResults(table, added[..n - 1], created[..n - 1]);
      if prefix.Broken? then prefix
      else if created[n - 1].None? then Broken(prefix.table, n - 1)
      else Merged(MergeEdgeId(prefix.table, added[n - 1], created[n - 1].value))
  }

  /** When every create succeeded, the fold leaves the merge of all of them. */
  lemma {:induction false} MergedTable(table: map<EntityKey, Entity>, added: seq<EntityKey>, created: seq<Option<EdgeId>>)
    requires |added| == |created|
    requires forall k :: k in added ==> k in table
    requires forall j :: 0 <= j < |created| ==> created[j].Some?
    ensures MergeResults(table, added, created) == Merged(MergeEdges(table, Pairs(added, created)))
  {
    if added != [] {
      var n := |added|;
      var a', c' := added[..n - 1], created[..n - 1];
      assert forall k :: k in a' ==> k in added;
      MergedTable(table, a', c');
      var v := created[n - 1].value;
      var ps := Pairs(added, created);
      assert ps[..n - 1] == Pairs(a', c');
      assert ps[n - 1] == (added[n - 1], v);
    }
  }

  /** When a create failed, the fold leaves the merge of those before the
      first failed one. */
  lemma {:induction false} BrokenTable(table: map<EntityKey, Entity>, added: seq<EntityKey>, created: seq<Option<EdgeId>>)
    requires |added| == |created|
    requires forall k :: k in added ==> k in table
    requires MergeResults(table, added, created).Broken?
    ensures var r := MergeResults(table, added, created);
      r.table == MergeEdges(table, Pairs(added[..r.at], created[..r.at]))
  {
    var n := |added|;
    var a', c' := added[..n - 1], created[..n - 1];
    assert forall k :: k in a' ==> k in added;
    var prefix := MergeResults(table, a', c');
    var r := MergeResults(table, added, created);
    if prefix.Broken? {
      assert r == prefix;
      BrokenTable(table, a', c');
      assert a'[..r.at] == added[..r.at] && c'[..r.at] == created[..r.at];
    } else {
      assert r == Broken(prefix.table, n - 1);
      MergedTable(table, a', c');
      assert added[..r.at] == a' && created[..r.at] == c';
    }
  }

  /** The effects of one cycle: the remote calls issued, the key list recorded
      in `state.entities` (if the cycle reached that point), the shared entity
      table afterwards, and the content state the returned promise yields. */
  datatype Cycle = Cycle(calls: seq<Call>, recorded: Option<seq<EntityKey>>,
                         table: map<EntityKey, Entity>, outcome: Result<Content>)

  /** The keys `_.difference(entities, prevEntities)` yields: linked now, not recorded before. */
  function Added(prev: seq<EntityKey>, next: Content): (r: seq<EntityKey>)
    ensures forall k :: k in r <==> k in AllLinks(next) && k !in prev
    ensures forall k :: k in r ==> k in next.entities
  {
    Difference(AllLinks(next), prev)
  }

  /** The keys `_.difference(prevEntities, entities)` yields: recorded before, not linked now. */
  function Removed(prev: seq<EntityKey>, next: Content): (r: seq<EntityKey>)
    ensures forall k :: k in r <==> k in prev && k !in AllLinks(next)
  {
    Difference(prev, AllLinks(next))
  }

  /** One reconciliation cycle for document `docId`, with `prev` the recorded
      key list, `next` the snapshot and `created[i]` the outcome of the i-th
      create call (`None` when it rejected). Remove outcomes are swallowed by
      their `.catch` and never influence the cycle. */
  function Reconcile(docId: NodeId, prev: seq<EntityKey>, next: Content, created: seq<Option<EdgeId>>): (r: Cycle)
    requires |created| == |Added(prev, next)|
    ensures r.table.Keys == next.entities.Keys
    ensures r.recorded.Some? ==> r.recorded.value == AllLinks(next)
    ensures r.outcome.Success? ==> r.outcome.value == Content(next.blocks, r.table)
  {
    var links := AllLinks(next);
    var added := Added(prev, next);
    var removed := Removed(prev, next);
    var adds := AddCalls(docId, next.entities, added);
    var i := FirstMissing(next.entities, removed);
    var rems := RemoveCalls(next.entities, removed[..i]);
    if i < |removed| then
      Cycle(adds + rems, None, next.entities, Failure(UnknownEntity(removed[i])))
    else
      match MergeResults(next.entities, added, created)
      case Merged(t) => Cycle(adds + rems, Some(links), t, Success(Content(next.blocks, t)))
      case Broken(t, at) => Cycle(adds + rems, Some(links), t, Failure(CreateFailed(added[at])))
  }

  /** Remote calls: one `addEdge(docId, nodeId, text)` per added key, in order,
      then one `removeEdge(edgeId)` per removed key, in order, also when the
      entity has no edge id; a removed key missing from the table stops the
      removes there. */
  lemma ReconcileCalls(docId: NodeId, prev: seq<EntityKey>, next: Content, created: seq<Option<EdgeId>>)
    requires |created| == |Added(prev, next)|
    ensures var c, added, removed := Reconcile(docId, prev, next, created), Added(prev, next), Removed(prev, next);
      && |added| <= |c.calls| <= |added| + |removed|
      && (forall i :: 0 <= i < |added| ==>
            c.calls[i] == AddEdge(docId, next.entities[added[i]].data.nodeId, next.entities[added[i]].data.text))
      && (forall j :: 0 <= j < |c.calls| - |added| ==>
            removed[j] in next.entities && c.calls[|added| + j] == RemoveEdge(next.entities[removed[j]].data.edgeId))
      && (|c.calls| == |added| + |removed| <==> !(c.outcome.Failure? && c.outcome.error.UnknownEntity?))
      && (|c.calls| < |added| + |removed| ==>
            removed[|c.calls| - |added|] !in next.entities
            && c.outcome == Failure(UnknownEntity(removed[|c.calls| - |added|])))
  {
    var added, removed := Added(prev, next), Removed(prev, next);
    var adds := AddCalls(docId, next.entities, added);
    var i := FirstMissing(next.entities, removed);
    var rems := RemoveCalls(next.entities, removed[..i]);
    var c := Reconcile(docId, prev, next, created);
    assert c.calls == adds + rems;
    assert c.outcome.Failure? && c.outcome.error.UnknownEntity? <==> i < |removed|;
    forall j | 0 <= j < |c.calls| - |added|
      ensures removed[j] in next.entities && c.calls[|added| + j] == RemoveEdge(next.entities[removed[j]].data.edgeId)
    {
      assert c.calls[|added| + j] == rems[j];
      assert removed[..i][j] == removed[j];
    }
    assert |c.calls| == |added| + i;
  }

  /** The recorded key list is the new snapshot's key list, set before any
      create result is used; only a lookup failure on a removed key prevents it. */
  lemma ReconcileRecords(docId: NodeId, prev: seq<EntityKey>, next: Content, created: seq<Option<EdgeId>>)
    requires |created| == |Added(prev, next)|
    ensures var c := Reconcile(docId, prev, next, created);
      && (c.recorded.Some? <==> forall k :: k in Removed(prev, next) ==> k in next.entities)
      && (c.recorded.Some? ==> c.recorded.value == AllLinks(next))
      && (c.recorded.None? <==> c.outcome.Failure? && c.outcome.error.UnknownEntity?)
  {
    var removed := Removed(prev, next);
    var i := FirstMissing(next.entities, removed);
    if i < |removed| {
      assert removed[i] in removed;
    }
  }

  /** The cycle delivers a content state exactly when every removed key
      resolves and every create succeeds; remove outcomes play no part. */
  lemma ReconcileSucceeds(docId: NodeId, prev: seq<EntityKey>, next: Content, created: seq<Option<EdgeId>>)
    requires |created| == |Added(prev, next)|
    ensures Reconcile(docId, prev, next, created).outcome.Success? <==>
      (forall k :: k in Removed(prev, next) ==> k in next.entities) && (forall j :: 0 <= j < |created| ==> created[j].Some?)
  {
    var removed := Removed(prev, next);
    var i := FirstMissing(next.entities, removed);
    if i < |removed| {
      assert removed[i] in removed;
    }
  }

  /** Folding all create results into the table: each key of `added` gets the
      edge id of its last occurrence, every other entry stays as it was. */
  lemma MergeAllSpec(table: map<EntityKey, Entity>, added: seq<EntityKey>, created: seq<Option<EdgeId>>)
    requires |added| == |created|
    requires forall k :: k in added ==> k in table
    requires forall j :: 0 <= j < |created| ==> created[j].Some?
    ensures var t := MergeEdges(table, Pairs(added, created));
      && (forall k :: k in table && k !in added ==> t[k] == table[k])
      && (forall j :: 0 <= j < |added| && (forall j' :: j < j' < |added| ==> added[j'] != added[j]) ==>
            t[added[j]] == Stamped(table[added[j]], created[j]))
  {
    var t := MergeEdges(table, Pairs(added, created));
    MergeEdgesSpec(table, Pairs(added, created));
    forall k | k in table && k !in added ensures t[k] == table[k] {
      LastEdgeOfPairs(added, created, k);
    }
    forall j | 0 <= j < |added| && (forall j' :: j < j' < |added| ==> added[j'] != added[j])
      ensures t[added[j]] == Stamped(table[added[j]], created[j])
    {
      LastEdgeOfPairs(added, created, added[j]);
    }
  }

  /** Every key resolves, so no lookup stops the removes. */
  lemma {:induction false} FirstMissingNone(table: map<EntityKey, Entity>, ks: seq<EntityKey>)
    requires forall k :: k in ks ==> k in table
    ensures FirstMissing(table, ks) == |ks|
  {
    if ks != [] {
      assert ks[0] in ks;
      FirstMissingNone(table, ks[1..]);
    }
  }

  /** Once every removed key resolves, the cycle is decided by the merge fold
      alone: its table is the fold's and its outcome follows the fold's. */
  lemma ReconcileResolved(docId: NodeId, prev: seq<EntityKey>, next: Content, created: seq<Option<EdgeId>>)
    requires |created| == |Added(prev, next)|
    requires forall k :: k in Removed(prev, next) ==> k in next.entities
    ensures var c, added := Reconcile(docId, prev, next, created), Added(prev, next);
      var m := MergeResults(next.entities, added, created);
      && c.recorded == Some(AllLinks(next)) && c.table == m.table
      && c.outcome == (if m.Merged? then Success(Content(next.blocks, m.table)) else Failure(CreateFailed(added[m.at])))
  {
    FirstMissingNone(next.entities, Removed(prev, next));
  }

  /** Merge when every create succeeds: the cycle yields the snapshot's blocks
      with each added key's entity carrying the edge id of its last create, and
      every other entity, and every other field, unchanged. */
  lemma ReconcileMerge(docId: NodeId, prev: seq<EntityKey>, next: Content, created: seq<Option<EdgeId>>)
    requires |created| == |Added(prev, next)|
    requires forall k :: k in Removed(prev, next) ==> k in next.entities
    requires forall j :: 0 <= j < |created| ==> created[j].Some?
    ensures var c, added := Reconcile(docId, prev, next, created), Added(prev, next);
      && c.outcome == Success(Content(next.blocks, c.table))
      && c.table.Keys == next.entities.Keys
      && (forall k :: k in next.entities && k !in added ==> c.table[k] == next.entities[k])
      && (forall j :: 0 <= j < |added| && (forall j' :: j < j' < |added| ==> added[j'] != added[j]) ==>
            c.table[added[j]] == Stamped(next.entities[added[j]], created[j]))
  {
    var added := Added(prev, next);
    ReconcileResolved(docId, prev, next, created);
    MergedTable(next.entities, added, created);
    MergeAllSpec(next.entities, added, created);
  }

  /** A failed create breaks the chain: the cycle yields no content state and
      names the first failed key; the key list was recorded all the same, and
      only entities named by the creates before it have been touched. */
  lemma ReconcileCreateFailed(docId: NodeId, prev: seq<EntityKey>, next: Content, created: seq<Option<EdgeId>>, j: nat)
    requires |created| == |Added(prev, next)|
    requires forall k :: k in Removed(prev, next) ==> k in next.entities
    requires j < |created| && created[j].None?
    ensures var c, added := Reconcile(docId, prev, next, created), Added(prev, next);
      && c.recorded == Some(AllLinks(next))
      && exists at :: 0 <= at <= j && created[at].None? && c.outcome == Failure(CreateFailed(added[at]))
           && (forall k :: k in next.entities && k !in added[..at] ==> c.table[k] == next.entities[k])
  {
    var added := Added(prev, next);
    var m := MergeResults(next.entities, added, created);
    ReconcileResolved(docId, prev, next, created);
    assert m.Broken?;
    var at := m.at;
    BrokenTable(next.entities, added, created);
    assert forall k :: k in added[..at] ==> k in next.entities;
    MergeEdgesSpec(next.entities, Pairs(added[..at], created[..at]));
    forall k | k in next.entities && k !in added[..at] ensures m.table[k] == next.entities[k] {
      LastEdgeOfPairs(added[..at], created[..at], k);
    }
  }

  /** With one entity table shared by all snapshots (every recorded key still
      resolves), the lookup of a removed key never fails. */
  lemma SharedTableNeverUnknown(docId: NodeId, prev: seq<EntityKey>, next: Content, created: seq<Option<EdgeId>>)
    requires |created| == |Added(prev, next)|
    requires forall k :: k in prev ==> k in next.entities
    ensures var c := Reconcile(docId, prev, next, created);
      c.recorded == Some(AllLinks(next)) && !(c.outcome.Failure? && c.outcome.error.UnknownEntity?)
  {
    ReconcileRecords(docId, prev, next, created);
  }

  /** A snapshot whose key list is exactly the recorded one issues no remote
      call and yields itself. */
  lemma ReconcileStable(docId: NodeId, next: Content)
    ensures |Added(AllLinks(next), next)| == 0
    ensures Reconcile(docId, AllLinks(next), next, []) ==
      Cycle([], Some(AllLinks(next)), next.entities, Success(next))
  {
    DifferenceSelf(AllLinks(next));
  }
}
