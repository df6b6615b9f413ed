/** The inline toolbar's `rule`: the toolbar is offered for a selection only
    when its blocks share one allowed type and none of them is empty. */
module Toolbar {
  import opened Draft

  const AllowedTypes: seq<string> := ["unstyled", "header-three", "header-four", "header-five",
                                      "blockquote", "code-block", "unordered-list-item", "ordered-list-item"]

  /** The first index at or after `from` whose block has key `key`, or `|bs|`. */
  function IndexOf(bs: seq<Block>, key: BlockKey, from: nat): (r: nat)
    requires from <= |bs|
    ensures from <= r <= |bs|
    ensures r < |bs| ==> bs[r].key == key
    ensures forall j :: from <= j < r ==> bs[j].key != key
    decreases |bs| - from
  {
    if from == |bs| || bs[from].key == key then from else IndexOf(bs, key, from + 1)
  }

  /** The selected blocks: the contiguous run from the block with the start
      key through the first block at or after it with the end key, or to the
      last block when there is none. Empty when the start key is absent. */
  function SelectedRun(bs: seq<Block>, startKey: BlockKey, endKey: BlockKey): (r: seq<Block>)
    ensures |r| <= |bs|
    ensures r != [] ==> r[0].key == startKey
  {
    var s := IndexOf(bs, startKey, 0);
    if s == |bs| then []
    else
      var e := IndexOf(bs, endKey, s);
      if e == |bs| then bs[s..] else bs[s..e + 1]
  }

  /** Scanning past `i` while looking for `key` from `from`: the first match is
      `i` itself when `bs[i]` has the key, and lies beyond `i` otherwise. */
  lemma IndexOfPast(bs: seq<Block>, key: BlockKey, from: nat, i: nat)
    requires from <= i < |bs| && IndexOf(bs, key, from) >= i
    ensures bs[i].key == key ==> IndexOf(bs, key, from) == i
    ensures bs[i].key != key ==> IndexOf(bs, key, from) > i
  {
  }

  /** The run is contiguous, starts at the first block with the start key and
      stops at the first block with the end key at or after it, or at the end. */
  lemma SelectedRunSpec(bs: seq<Block>, startKey: BlockKey, endKey: BlockKey)
    ensures var sel, s := SelectedRun(bs, startKey, endKey), IndexOf(bs, startKey, 0);
      && (sel == [] <==> forall i :: 0 <= i < |bs| ==> bs[i].key != startKey)
      && (sel != [] ==>
            && s + |sel| <= |bs| && sel == bs[s..s + |sel|]
            && (forall i :: 0 <= i < s ==> bs[i].key != startKey) && sel[0].key == startKey
            && (forall j :: 0 <= j < |sel| - 1 ==> sel[j].key != endKey)
            && (sel[|sel| - 1].key == endKey || s + |sel| == |bs|))
  {
    var sel, s := SelectedRun(bs, startKey, endKey), IndexOf(bs, startKey, 0);
    if s < |bs| {
      var e := IndexOf(bs, endKey, s);
      if e == |bs| {
        assert sel == bs[s..];
      } else {
        assert sel == bs[s..e + 1] && |sel| == e + 1 - s;
        assert sel[|sel| - 1] == bs[e];
      }
      assert sel[0] == bs[s];
      assert forall j :: 0 <= j < |sel| - 1 ==> sel[j] == bs[s + j];
    }
  }

  /** `blocks.filter(...)` with its two flags `seenFirst` and `seenLast`. */
  method SelectBlocks(bs: seq<Block>, startKey: BlockKey, endKey: BlockKey) returns (selected: seq<Block>)
    ensures selected == SelectedRun(bs, startKey, endKey)
  {
    ghost var s := IndexOf(bs, startKey, 0);
    var seenFirst, seenLast := false, false;
    selected := [];
    for i := 0 to |bs|
      invariant seenFirst <==> s < i
      invariant seenLast ==> seenFirst
      invariant s < i ==> (seenLast <==> IndexOf(bs, endKey, s) < i)
      invariant selected == if s < i then bs[s..if seenLast then IndexOf(bs, endKey, s) + 1 else i] else []
    {
      var key := bs[i].key;
      var keep: bool;
      if seenLast {
        keep := false;
      } else if key == startKey {
        if !seenFirst {
          IndexOfPast(bs, startKey, 0, i);
          assert s == i;
        }
        IndexOfPast(bs, endKey, s, i);
        seenFirst := true;
        if key == endKey {
          seenLast := true;
        }
        keep := true;
      } else if !seenFirst {
        IndexOfPast(bs, startKey, 0, i);
        keep := false;
      } else if key != endKey {
        IndexOfPast(bs, endKey, s, i);
        keep := true;
      } else {
        IndexOfPast(bs, endKey, s, i);
        seenLast := true;
        keep := true;
      }
      if keep {
        assert bs[s..i + 1] == bs[s..i] + [bs[i]];
        selected := selected + [bs[i]];
      }
    }
  }

  /** The accumulator of `reduce((acc, block) => block.getType() === acc && acc, first type)`:
      a block type, or `false` once a block of another type has been seen. */
  datatype TypeAcc = SameType(kind: string) | Mixed

  function FoldTypes(bs: seq<Block>, acc: TypeAcc): (r: TypeAcc)
    ensures r == acc || r == Mixed
  {
    if bs == [] then acc
    else
      var next := if acc.SameType? && bs[0].kind == acc.kind then acc else Mixed;
      FoldTypes(bs[1..], next)
  }

  /** The fold keeps the type exactly when every block has it. */
  lemma {:induction false} FoldTypesSpec(bs: seq<Block>, t: string)
    ensures FoldTypes(bs, SameType(t)) == (if forall i :: 0 <= i < |bs| ==> bs[i].kind == t then SameType(t) else Mixed)
    ensures FoldTypes(bs, Mixed) == Mixed
  {
    if bs != [] {
      FoldTypesSpec(bs[1..], t);
      if bs[0].kind != t {
        assert !(forall i :: 0 <= i < |bs| ==> bs[i].kind == t);
      }
    }
  }

  /** What the rule returns for a non-empty selection. The fold's result is
      tested for truthiness, so an empty type string also fails the test. */
  function Accepts(selected: seq<Block>): (r: bool)
    requires selected != []
    ensures r ==> forall i :: 0 <= i < |selected| ==> selected[i].kind in AllowedTypes && selected[i].text != ""
    ensures r ==> selected[0].kind != ""
  {
    var acc := FoldTypes(selected, SameType(selected[0].kind));
    if acc.Mixed? || acc.kind == "" then false
    else forall i :: 0 <= i < |selected| ==> selected[i].kind in AllowedTypes && selected[i].text != ""
  }

  /** The rule accepts a selection exactly when all selected blocks share one
      type, that type is in the allow-list, and no selected block is empty. */
  lemma AcceptsIff(selected: seq<Block>)
    requires selected != []
    ensures Accepts(selected) <==>
      && (forall i :: 0 <= i < |selected| ==> selected[i].kind == selected[0].kind)
      && selected[0].kind in AllowedTypes
      && (forall i :: 0 <= i < |selected| ==> selected[i].text != "")
  {
    FoldTypesSpec(selected, selected[0].kind);
  }

  /** The toolbar `rule`. `None` stands for the TypeError raised when the
      start key names no block and `selectedBlocks.first()` is undefined. */
  method Rule(bs: seq<Block>, startKey: BlockKey, endKey: BlockKey) returns (r: Option<bool>)
    ensures r.None? <==> forall i :: 0 <= i < |bs| ==> bs[i].key != startKey
    ensures r.Some? ==> r.value == Accepts(SelectedRun(bs, startKey, endKey))
  {
    var selected := SelectBlocks(bs, startKey, endKey);
    if selected == [] {
      return None;
    }
    var acc := FoldTypes(selected, SameType(selected[0].kind));
    if acc.Mixed? || acc.kind == "" {
      return Some(false);
    }
    return Some(forall i :: 0 <= i < |selected| ==> selected[i].kind in AllowedTypes && selected[i].text != "");
  }
}
