/** The `ContentEditor` component: its state fields, the edit/save cycle of
    `onChange`, the document switch, the collapsed flag, and the small pure
    mappings its render uses. */
module Editor {
  import opened Draft
  import opened Extractor
  import opened Reconciler

  /** `myBlockStyleFn`: the CSS class of a block type. */
  function BlockStyle(kind: string): (r: string)
    ensures r == "ContentEditor-orderedListItem" <==> kind == "ordered-list-item"
    ensures r == "ContentEditor-unorderedListItem" <==> kind == "unordered-list-item"
    ensures r == "" <==> kind != "ordered-list-item" && kind != "unordered-list-item"
  {
    if kind == "ordered-list-item" then "ContentEditor-orderedListItem"
    else if kind == "unordered-list-item" then "ContentEditor-unorderedListItem"
    else ""
  }

  /** The placeholder is hidden when the document has no text yet but its
      first block already has a type other than `unstyled`. A Draft content
      state always holds at least one block. */
  function HidePlaceholder(c: Content): (r: bool)
    requires |c.blocks| > 0
    ensures r <==> |c.blocks| == 1 && c.blocks[0].text == "" && c.blocks[0].kind != "unstyled"
  {
    !HasText(c) && c.blocks[0].kind != "unstyled"
  }

  /** `prevContent !== content`, on values: the block map differs. Content
      that is unchanged has the same blocks, one by one. */
  predicate ContentChanged(prev: Content, next: Content): (r: bool)
    ensures !r ==> |prev.blocks| == |next.blocks| && forall i :: 0 <= i < |prev.blocks| ==> prev.blocks[i] == next.blocks[i]
    ensures |prev.blocks| != |next.blocks| ==> r
  {
    prev.blocks != next.blocks
  }

  class ContentEditor {
    // props
    var id: NodeId
    var saved: bool
    var readOnly: bool

    // this.state
    var editorState: Content
    var entities: seq<EntityKey>
    var collapsed: bool
    var saveInProgress: bool

    // what the component has handed to `addEdge`/`removeEdge` and to `persistState`
    var calls: seq<Call>
    var persisted: seq<Content>

    /** Draft's invariant holds for the current snapshot, and every recorded
        key resolves in it: the shared entity store never drops an entity. */
    ghost predicate Valid()
      reads this
    {
      WellFormed(editorState) && forall k :: k in entities ==> k in editorState.entities
    }

    /** The navigation guard: the `Prompt` is rendered unless read-only, and
        blocks leaving while the document is unsaved or a save is running. */
    function NavigationGuard(): (r: bool)
      reads this
      ensures !readOnly && (!saved || saveInProgress) ==> r
      ensures r ==> !readOnly && (!saved || saveInProgress)
    {
      !readOnly && (!saved || saveInProgress)
    }

    constructor(id: NodeId, initial: Content, withToolbar: bool, saved: bool, readOnly: bool)
      requires WellFormed(initial)
      ensures Valid()
      ensures this.id == id && this.saved == saved && this.readOnly == readOnly
      ensures editorState == initial && entities == AllLinks(initial)
      ensures collapsed == !withToolbar && !saveInProgress
      ensures calls == [] && persisted == []
    {
      var keys := GetAllEntities(initial);
      this.id := id;
      this.saved := saved;
      this.readOnly := readOnly;
      editorState := initial;
      entities := keys;
      collapsed := !withToolbar;
      saveInProgress := false;
      calls := [];
      persisted := [];
    }

    /** `componentWillReceiveProps`: switching to another document resets the
        snapshot, the recorded key list and the collapsed flag, and leaves
        `saveInProgress` alone; the props themselves are always replaced. */
    method ReceiveProps(nextId: NodeId, nextInitial: Content, nextWithToolbar: bool, nextSaved: bool, nextReadOnly: bool)
      requires Valid()
      requires id != nextId ==> WellFormed(nextInitial)
      modifies this
      ensures Valid()
      ensures id == nextId && saved == nextSaved && readOnly == nextReadOnly
      ensures old(id) != nextId ==>
        editorState == nextInitial && entities == AllLinks(nextInitial) && collapsed == !nextWithToolbar
      ensures old(id) == nextId ==>
        editorState == old(editorState) && entities == old(entities) && collapsed == old(collapsed)
      ensures saveInProgress == old(saveInProgress) && calls == old(calls) && persisted == old(persisted)
    {
      if id != nextId {
        var keys := GetAllEntities(nextInitial);
        editorState := nextInitial;
        entities := keys;
        collapsed := !nextWithToolbar;
      }
      id, saved, readOnly := nextId, nextSaved, nextReadOnly;
    }

    /** `persistContentLinks` on the current snapshot, with `created[i]` the
        outcome of the i-th `addEdge` call. The merged edge ids land in the
        shared entity table, which the current snapshot reads through. */
    method PersistContentLinks(created: seq<Option<EdgeId>>) returns (outcome: Result<Content>)
      requires WellFormed(editorState)
      requires |created| == |Added(entities, editorState)|
      modifies this
      ensures WellFormed(editorState) && editorState.entities.Keys == old(editorState).entities.Keys
      ensures var c := Reconcile(old(id), old(entities), old(editorState), created);
        && outcome == c.outcome
        && calls == old(calls) + c.calls
        && entities == (if c.recorded.Some? then c.recorded.value else old(entities))
        && editorState == Content(old(editorState).blocks, c.table)
      ensures id == old(id) && saved == old(saved) && readOnly == old(readOnly)
      ensures collapsed == old(collapsed) && saveInProgress == old(saveInProgress) && persisted == old(persisted)
    {
      var snap, prevEntities := editorState, entities;
      ghost var c := Reconcile(id, prevEntities, snap, created);
      var table := snap.entities;
      var keys := GetAllEntities(snap);
      var added := Diff.Difference(keys, prevEntities);
      var removed := Diff.Difference(prevEntities, keys);
      var adds := AddCalls(id, table, added);
      // looking up a removed key the table does not hold throws
      var i := FirstMissing(table, removed);
      var rems := RemoveCalls(table, removed[..i]);
      assert c.calls == adds + rems;
      calls := calls + (adds + rems);
      if i < |removed| {
        assert c.outcome == Failure(UnknownEntity(removed[i])) && c.recorded.None? && c.table == table;
        return Failure(UnknownEntity(removed[i]));
      }
      entities := keys;
      var merged := MergeResults(table, added, created);
      assert c.table == merged.table && c.recorded == Some(keys);
      WellFormedRetabled(snap, merged.table);
      editorState := Content(snap.blocks, merged.table);
      if merged.Broken? {
        assert c.outcome == Failure(CreateFailed(added[merged.at]));
        return Failure(CreateFailed(added[merged.at]));
      }
      assert c.outcome == Success(editorState);
      return Success(editorState);
    }

    /** `persistState`: hand the content to the `persistState` prop. */
    method PersistState(c: Content)
      modifies this`persisted
      ensures persisted == old(persisted) + [c]
    {
      persisted := persisted + [c];
    }

    /** `onChange`: the snapshot is always replaced; a save cycle starts only
        when forced or when the content differs, and `saveInProgress` drops
        back to false only once `persistState` has been given the merged
        content. A cycle that fails leaves it (and the navigation guard) on. */
    method OnChange(next: Content, forceUpdate: bool, created: seq<Option<EdgeId>>) returns (started: bool)
      requires Valid() && WellFormed(next)
      requires SharesStore(editorState, next)
      requires forceUpdate || ContentChanged(editorState, next) ==> |created| == |Added(entities, next)|
      modifies this
      ensures Valid()
      ensures started == (forceUpdate || ContentChanged(old(editorState), next))
      ensures !started ==>
        && editorState == next && entities == old(entities) && saveInProgress == old(saveInProgress)
        && calls == old(calls) && persisted == old(persisted)
      ensures started ==> var c := Reconcile(id, old(entities), next, created);
        && editorState == Content(next.blocks, c.table)
        && entities == (if c.recorded.Some? then c.recorded.value else old(entities))
        && calls == old(calls) + c.calls
        && persisted == old(persisted) + (if c.outcome.Success? then [c.outcome.value] else [])
        && saveInProgress == c.outcome.Failure?
        && c.recorded == Some(AllLinks(next)) && !(c.outcome.Failure? && c.outcome.error.UnknownEntity?)
      ensures started && saveInProgress ==> NavigationGuard() == !readOnly
      ensures id == old(id) && saved == old(saved) && readOnly == old(readOnly) && collapsed == old(collapsed)
    {
      var prevContent := editorState;
      started := forceUpdate || ContentChanged(prevContent, next);
      if started {
        saveInProgress := true;
      }
      editorState := next;
      if started {
        SharedTableNeverUnknown(id, entities, next, created);
        var outcome := PersistContentLinks(created);
        if outcome.Success? {
          PersistState(outcome.value);
          saveInProgress := false;
        }
      }
    }

    /** `focus`: expand the editor (the DOM focus call is not modelled). */
    method Focus()
      modifies this`collapsed
      ensures !collapsed
    {
      if collapsed {
        collapsed := false;
      }
    }

    /** `handleClickOutside`: collapse the editor. */
    method HandleClickOutside()
      modifies this`collapsed
      ensures collapsed
    {
      collapsed := true;
    }
  }
}
