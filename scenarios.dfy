/** Worked cycles on small concrete documents. */
module Scenarios {
  import opened Draft
  import opened Extractor
  import opened Diff
  import opened Reconciler

  const Doc: NodeId := "doc"

  function Link1(edge: Option<EdgeId>): Entity
  {
    Entity(ContentLink, EntityData("n1", "bar", edge))
  }

  function Link2(edge: Option<EdgeId>): Entity
  {
    Entity(ContentLink, EntityData("n2", "foo", edge))
  }

  function Table(edge1: Option<EdgeId>): map<EntityKey, Entity>
  {
    map["1" := Link1(edge1), "2" := Link2(None)]
  }

  /** The second block's first character is linked to entity "1". */
  function Before(edge1: Option<EdgeId>): Content
  {
    Content([Block("a", "unstyled", "hi", [None, None]), Block("b", "unstyled", "yo", [Some("1"), None])], Table(edge1))
  }

  /** The same document after the first block's first character was linked to entity "2". */
  function After(): Content
  {
    Content([Block("a", "unstyled", "hi", [Some("2"), None]), Block("b", "unstyled", "yo", [Some("1"), None])], Table(None))
  }

  /** The same document with the link to entity "1" deleted. */
  function Unlinked(edge1: Option<EdgeId>): Content
  {
    Content([Block("a", "unstyled", "hi", [None, None]), Block("b", "unstyled", "yo", [None, None])], Table(edge1))
  }

  lemma TwoBlocks(t: map<EntityKey, Entity>, a: Block, b: Block)
    ensures AllLinksOf(t, [a, b]) == BlockLinks(t, a.chars) + BlockLinks(t, b.chars)
  {
    assert [a, b][..1] == [a];
    assert [a][..0] == [];
    assert AllLinksOf(t, [a]) == AllLinksOf(t, []) + BlockLinks(t, a.chars);
    assert AllLinksOf(t, [a, b]) == AllLinksOf(t, [a]) + BlockLinks(t, b.chars);
  }

  lemma LinksOfScenarios(edge1: Option<EdgeId>)
    ensures AllLinks(Before(edge1)) == ["1"]
    ensures AllLinks(After()) == ["2", "1"]
    ensures AllLinks(Unlinked(edge1)) == []
  {
    var t, t' := Table(edge1), Table(None);
    var none: seq<Option<EntityKey>> := [None, None];
    assert BlockLinks(t, none) == [];
    assert BlockLinks(t, [Some("1"), None]) == ["1"];
    assert BlockLinks(t', [Some("1"), None]) == ["1"];
    assert BlockLinks(t', [Some("2"), None]) == ["2"];
    TwoBlocks(t, Before(edge1).blocks[0], Before(edge1).blocks[1]);
    TwoBlocks(t', After().blocks[0], After().blocks[1]);
    TwoBlocks(t, Unlinked(edge1).blocks[0], Unlinked(edge1).blocks[1]);
  }

  /** Adding a second link: one `addEdge(doc, "n2", "foo")`, no remove, and on
      `edge123` the result carries that edge id on entity "2" while "1" is unchanged. */
  lemma AddScenario()
    ensures Added(["1"], After()) == ["2"] && Removed(["1"], After()) == []
    ensures var c := Reconcile(Doc, ["1"], After(), [Some("edge123")]);
      && c.calls == [AddEdge(Doc, "n2", "foo")]
      && c.recorded == Some(["2", "1"])
      && c.outcome == Success(Content(After().blocks, map["1" := Link1(None), "2" := Link2(Some("edge123"))]))
  {
    LinksOfScenarios(None);
    assert Difference(["2", "1"], ["1"]) == ["2"];
    assert Difference(["1"], ["2", "1"]) == [];
    var created := [Some("edge123")];
    ReconcileCalls(Doc, ["1"], After(), created);
    ReconcileRecords(Doc, ["1"], After(), created);
    ReconcileMerge(Doc, ["1"], After(), created);
    var c := Reconcile(Doc, ["1"], After(), created);
    assert c.table["2"] == Link2(Some("edge123"));
    assert c.table == map["1" := Link1(None), "2" := Link2(Some("edge123"))];
  }

  /** Removing a link whose edge is `edge9`: one `removeEdge("edge9")` and no create. */
  lemma RemoveScenario()
    ensures Added(["1"], Unlinked(Some("edge9"))) == [] && Removed(["1"], Unlinked(Some("edge9"))) == ["1"]
    ensures var c := Reconcile(Doc, ["1"], Unlinked(Some("edge9")), []);
      c.calls == [RemoveEdge(Some("edge9"))] && c.outcome == Success(Unlinked(Some("edge9")))
  {
    LinksOfScenarios(Some("edge9"));
    assert Difference(["1"], []) == ["1"];
    ReconcileCalls(Doc, ["1"], Unlinked(Some("edge9")), []);
    ReconcileMerge(Doc, ["1"], Unlinked(Some("edge9")), []);
  }

  /** Removing a link that never got an edge id still calls `removeEdge(undefined)`. */
  lemma RemoveWithoutEdgeScenario()
    ensures Added(["1"], Unlinked(None)) == [] && Removed(["1"], Unlinked(None)) == ["1"]
    ensures var c := Reconcile(Doc, ["1"], Unlinked(None), []);
      c.calls == [RemoveEdge(None)] && c.outcome == Success(Unlinked(None))
  {
    var d := Unlinked(None);
    LinksOfScenarios(None);
    assert Difference(["1"], []) == ["1"];
    assert Added(["1"], d) == [] && Removed(["1"], d) == ["1"];
    ReconcileCalls(Doc, ["1"], d, []);
    ReconcileMerge(Doc, ["1"], d, []);
    var c := Reconcile(Doc, ["1"], d, []);
    assert |c.calls| == 1 && c.calls[0] == RemoveEdge(None);
    assert c.table == d.entities;
  }

  /** A rejected create: the key list is recorded but the cycle delivers nothing. */
  lemma FailedCreateScenario()
    ensures Added(["1"], After()) == ["2"]
    ensures var c := Reconcile(Doc, ["1"], After(), [None]);
      && c.calls == [AddEdge(Doc, "n2", "foo")]
      && c.recorded == Some(["2", "1"])
      && c.outcome == Failure(CreateFailed("2"))
  {
    var d := After();
    LinksOfScenarios(None);
    assert Difference(["2", "1"], ["1"]) == ["2"];
    assert Difference(["1"], ["2", "1"]) == [];
    assert Added(["1"], d) == ["2"] && Removed(["1"], d) == [];
    ReconcileCalls(Doc, ["1"], d, [None]);
    ReconcileCreateFailed(Doc, ["1"], d, [None], 0);
    var c := Reconcile(Doc, ["1"], d, [None]);
    assert |c.calls| == 1 && c.calls[0] == AddEdge(Doc, "n2", "foo");
  }
}
