/** The slice of Draft.js's document model that the content editor relies on:
    blocks of text whose characters carry an optional entity key, and the
    entity table those keys resolve through. */
module Draft {

  datatype Option<+T> = None | Some(value: T)

  type EntityKey = string
  type BlockKey = string
  type NodeId = string
  type EdgeId = string

  /** The entity type the editor keeps in step with the server's edges. */
  const ContentLink: string := "CONTENT_LINK"

  /** An entity's data record: the linked node, the link text, and the id of
      the server-side edge once one has been created. */
  datatype EntityData = EntityData(nodeId: NodeId, text: string, edgeId: Option<EdgeId>)

  datatype Entity = Entity(kind: string, data: EntityData)

  /** A block: its key in the block map, its block type, its text and, per
      character, the key of the entity covering it (if any). */
  datatype Block = Block(key: BlockKey, kind: string, text: string, chars: seq<Option<EntityKey>>)

  /** A content snapshot: the ordered block map together with the entity table
      its keys resolve through. Draft keeps that table in one store shared by
      every snapshot of the session. */
  datatype Content = Content(blocks: seq<Block>, entities: map<EntityKey, Entity>)

  /** Draft's invariant: a character only ever refers to an entity that exists. */
  ghost predicate WellFormed(c: Content)
  {
    forall b, i :: b in c.blocks && 0 <= i < |b.chars| && b.chars[i].Some? ==> b.chars[i].value in c.entities
  }

  /** Well-formedness depends only on which keys the table holds. */
  lemma WellFormedRetabled(c: Content, t: map<EntityKey, Entity>)
    requires WellFormed(c) && t.Keys == c.entities.Keys
    ensures WellFormed(Content(c.blocks, t))
  {
  }

  /** Draft 0.10's entity store is global and never drops an entity: a
      snapshot taken after `current` still holds every entity of `current`,
      with the data merged into it so far. */
  ghost predicate SharesStore(current: Content, next: Content)
  {
    forall k :: k in current.entities ==> k in next.entities && next.entities[k] == current.entities[k]
  }

  predicate IsContentLink(table: map<EntityKey, Entity>, k: EntityKey)
  {
    k in table && table[k].kind == ContentLink
  }

  /** `contentState.mergeEntityData(key, { edgeId })`: the entity's data gains
      the given edge id; its type, node and text and every other entity stay. */
  function MergeEdgeId(table: map<EntityKey, Entity>, k: EntityKey, e: EdgeId): (r: map<EntityKey, Entity>)
    requires k in table
    ensures r.Keys == table.Keys
    ensures r[k].kind == table[k].kind && r[k].data.nodeId == table[k].data.nodeId
    ensures r[k].data.text == table[k].data.text && r[k].data.edgeId == Some(e)
    ensures forall j :: j in table && j != k ==> r[j] == table[j]
  {
    table[k := table[k].(data := table[k].data.(edgeId := Some(e)))]
  }

  /** Draft's `ContentState.hasText`: more than one block, or a first block
      with at least one character. */
  function HasText(c: Content): (r: bool)
    requires |c.blocks| > 0
    ensures !r <==> |c.blocks| == 1 && c.blocks[0].text == ""
  {
    |c.blocks| > 1 || |c.blocks[0].text| > 0
  }
}
