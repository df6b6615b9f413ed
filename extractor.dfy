/** `getAllEntities`: the ordered list of content-link keys of a snapshot, one
    per place where a covered span ends before the last character of its block. */
module Extractor {
  import opened Draft

  /** The test applied to one adjacent pair `(c, nc)` of a character list:
      `c`'s key differs from `nc`'s, exists, and names a content link. */
  predicate PairEmits(table: map<EntityKey, Entity>, c: Option<EntityKey>, nc: Option<EntityKey>)
  {
    c != nc && c.Some? && IsContentLink(table, c.value)
  }

  /** Position `i` of a character list emits its key. */
  predicate Emits(table: map<EntityKey, Entity>, chars: seq<Option<EntityKey>>, i: int)
  {
    0 <= i && i + 1 < |chars| && PairEmits(table, chars[i], chars[i + 1])
  }

  /** The keys one block contributes, as the pairwise scan finds them. */
  function BlockLinks(table: map<EntityKey, Entity>, chars: seq<Option<EntityKey>>): (r: seq<EntityKey>)
    ensures forall k :: k in r ==> IsContentLink(table, k)
  {
    if |chars| < 2 then []
    else
      var n := |chars|;
      BlockLinks(table, chars[..n - 1])
        + (if PairEmits(table, chars[n - 2], chars[n - 1]) then [chars[n - 2].value] else [])
  }

  /** The keys of every block, in block-map order. */
  function AllLinksOf(table: map<EntityKey, Entity>, blocks: seq<Block>): (r: seq<EntityKey>)
    ensures forall k :: k in r ==> IsContentLink(table, k)
  {
    if blocks == [] then []
    else AllLinksOf(table, blocks[..|blocks| - 1]) + BlockLinks(table, blocks[|blocks| - 1].chars)
  }

  function AllLinks(c: Content): (r: seq<EntityKey>)
    ensures forall k :: k in r ==> IsContentLink(c.entities, k)
  {
    AllLinksOf(c.entities, c.blocks)
  }

  /** Reference definition: the positions below `n` that emit, in increasing order. */
  function Positions(table: map<EntityKey, Entity>, chars: seq<Option<EntityKey>>, n: nat): (ps: seq<nat>)
    ensures forall j :: 0 <= j < |ps| ==> ps[j] < n && Emits(table, chars, ps[j])
    ensures forall i :: 0 <= i < n && Emits(table, chars, i) ==> i in ps
    ensures forall j, j' :: 0 <= j < j' < |ps| ==> ps[j] < ps[j']
  {
    if n == 0 then []
    else Positions(table, chars, n - 1) + (if Emits(table, chars, n - 1) then [n - 1] else [])
  }

  /** The pairwise scan emits, in order, exactly the keys at the emitting positions. */
  lemma {:induction false} BlockLinksAtPositions(table: map<EntityKey, Entity>, chars: seq<Option<EntityKey>>, m: nat)
    requires 1 <= m <= |chars|
    ensures |BlockLinks(table, chars[..m])| == |Positions(table, chars, m - 1)|
    ensures forall j :: 0 <= j < |Positions(table, chars, m - 1)| ==>
      BlockLinks(table, chars[..m])[j] == chars[Positions(table, chars, m - 1)[j]].value
  {
    if m >= 2 {
      BlockLinksAtPositions(table, chars, m - 1);
      var pre, ps := BlockLinks(table, chars[..m - 1]), Positions(table, chars, m - 2);
      assert chars[..m][..m - 1] == chars[..m - 1];
      assert Emits(table, chars, m - 2) == PairEmits(table, chars[..m][m - 2], chars[..m][m - 1]);
      if Emits(table, chars, m - 2) {
        assert Positions(table, chars, m - 1) == ps + [m - 2];
        assert BlockLinks(table, chars[..m]) == pre + [chars[m - 2].value];
      } else {
        assert Positions(table, chars, m - 1) == ps;
        assert BlockLinks(table, chars[..m]) == pre;
      }
    }
  }

  /** Extractor boundaries: a block emits one key per emitting position, in
      position order, and nothing else. No position of the last character ever
      emits, so a span reaching the end of its block contributes nothing. */
  lemma BlockLinksExact(table: map<EntityKey, Entity>, chars: seq<Option<EntityKey>>)
    ensures var links, ps := BlockLinks(table, chars), Positions(table, chars, |chars|);
      && |links| == |ps|
      && (forall j :: 0 <= j < |ps| ==> ps[j] + 1 < |chars| && Emits(table, chars, ps[j]) && links[j] == chars[ps[j]].value)
      && (forall i :: Emits(table, chars, i) <==> i in ps)
      && (forall j, j' :: 0 <= j < j' < |ps| ==> ps[j] < ps[j'])
  {
    if |chars| == 0 {
    } else {
      BlockLinksAtPositions(table, chars, |chars|);
      assert chars[..|chars|] == chars;
      assert !Emits(table, chars, |chars| - 1);
      assert Positions(table, chars, |chars|) == Positions(table, chars, |chars| - 1);
    }
  }

  /** Key `k` is emitted by a block exactly when some position emits it. */
  lemma BlockLinksMembership(table: map<EntityKey, Entity>, chars: seq<Option<EntityKey>>, k: EntityKey)
    ensures k in BlockLinks(table, chars) <==>
      exists i :: 0 <= i < |chars| - 1 && chars[i] == Some(k) && chars[i] != chars[i + 1] && IsContentLink(table, k)
  {
    BlockLinksExact(table, chars);
    var links, ps := BlockLinks(table, chars), Positions(table, chars, |chars|);
    if k in links {
      var j :| 0 <= j < |links| && links[j] == k;
      assert Emits(table, chars, ps[j]);
    }
    if exists i :: 0 <= i < |chars| - 1 && chars[i] == Some(k) && chars[i] != chars[i + 1] && IsContentLink(table, k) {
      var i :| 0 <= i < |chars| - 1 && chars[i] == Some(k) && chars[i] != chars[i + 1] && IsContentLink(table, k);
      assert Emits(table, chars, i);
      var j :| 0 <= j < |ps| && ps[j] == i;
      assert links[j] == k;
    }
  }

  /** Blocks with fewer than two characters contribute nothing. */
  lemma ShortBlockSilent(table: map<EntityKey, Entity>, chars: seq<Option<EntityKey>>)
    requires |chars| <= 1
    ensures BlockLinks(table, chars) == []
  {
  }

  /** Blocks are scanned in block-map order: the keys of a concatenation of
      block lists are the keys of the first list followed by those of the second. */
  lemma {:induction false} AllLinksAppend(table: map<EntityKey, Entity>, xs: seq<Block>, ys: seq<Block>)
    ensures AllLinksOf(table, xs + ys) == AllLinksOf(table, xs) + AllLinksOf(table, ys)
  {
    if ys == [] {
      assert xs + ys == xs;
    } else {
      var n := |ys|;
      assert (xs + ys)[..|xs + ys| - 1] == xs + ys[..n - 1];
      AllLinksAppend(table, xs, ys[..n - 1]);
    }
  }

  /** The `reduce` over one block's character list, pushing onto `entities`. */
  method ScanBlock(table: map<EntityKey, Entity>, chars: seq<Option<EntityKey>>, entities: seq<EntityKey>)
    returns (out: seq<EntityKey>)
    requires forall i :: 0 <= i < |chars| && chars[i].Some? ==> chars[i].value in table
    ensures out == entities + BlockLinks(table, chars)
  {
    out := entities;
    if |chars| == 0 {
      // reducing an empty list without a seed yields undefined and calls nothing
      return;
    }
    var c := chars[0];
    var ni := 1;
    while ni < |chars|
      invariant 1 <= ni <= |chars|
      invariant c == chars[ni - 1]
      invariant out == entities + BlockLinks(table, chars[..ni])
    {
      var nc := chars[ni];
      var entityKey := c;
      if entityKey != nc {
        if entityKey.Some? && table[entityKey.value].kind == ContentLink {
          out := out + [entityKey.value];
        }
      }
      assert chars[..ni + 1][..ni] == chars[..ni];
      c := nc;
      ni := ni + 1;
    }
    assert chars[..ni] == chars;
  }

  /** `getAllEntities(editorState)`. */
  method GetAllEntities(c: Content) returns (entities: seq<EntityKey>)
    requires WellFormed(c)
    ensures entities == AllLinks(c)
  {
    entities := [];
    var b := 0;
    while b < |c.blocks|
      invariant 0 <= b <= |c.blocks|
      invariant entities == AllLinksOf(c.entities, c.blocks[..b])
    {
      var block := c.blocks[b];
      assert block in c.blocks;
      entities := ScanBlock(c.entities, block.chars, entities);
      assert c.blocks[..b + 1][..b] == c.blocks[..b];
      b := b + 1;
    }
    assert c.blocks[..b] == c.blocks;
  }
}
