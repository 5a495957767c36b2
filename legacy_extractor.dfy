/**
 * The older extractor: a walk whose current page is one shared variable, set on entering a
 * child page and never restored, and a grouping of every bold-and-italic run by its text.
 */
module LegacyExtractor {
  import opened Common
  import opened Blocks
  import opened Links
  import opened UnitFilter
  import opened Vocabulary

  /** The current page after the walk enters `b`: rebound when `b` is a child page. */
  function Entered(b: Block, parent: Id): Id
  {
    if b.kind == ChildPage then b.id else parent
  }

  /**
   * The blocks fetched below a list of siblings, each tagged with the current page, and the
   * current page once the last of them is done. A block with children is entered right after it
   * is tagged; whatever page that entering sets stays current for everything after.
   */
  function FetchChildren(kids: seq<Node>, parent: Id): (seq<Tagged>, Id)
    decreases kids
  {
    if kids == [] then ([], parent)
    else
      var child := kids[0];
      var here := Tagged(child.block, parent, None);
      var (below, afterChild) :=
        if child.block.hasChildren then FetchChildren(child.kids, Entered(child.block, parent)) else ([], parent);
      var (rest, last) := FetchChildren(kids[1..], afterChild);
      ([here] + below + rest, last)
  }

  /** `unfold_block`: nothing unless the root is a page; otherwise every block below it. */
  function UnfoldBlockSpec(root: Node): (r: Option<seq<Tagged>>)
    ensures r.None? <==> root.block.kind != ChildPage
  {
    if root.block.kind != ChildPage then None
    else Some(FetchChildren(root.kids, root.block.id).0)
  }

  /** The most recently entered page among `blocks` (a child page with children), else `root`. */
  function LastEntered(blocks: seq<Block>, root: Id): Id
  {
    if blocks == [] then root
    else
      var b := blocks[|blocks| - 1];
      if b.kind == ChildPage && b.hasChildren then b.id else LastEntered(blocks[..|blocks| - 1], root)
  }

  lemma {:induction false} LastEnteredAppend(a: seq<Block>, b: seq<Block>, root: Id)
    ensures LastEntered(a + b, root) == LastEntered(b, LastEntered(a, root))
    decreases |b|
  {
    if b == [] {
      assert a + b == a;
    } else {
      assert (a + b)[..|a + b| - 1] == a + b[..|b| - 1];
      LastEnteredAppend(a, b[..|b| - 1], root);
    }
  }

  /** Each emitted block carries the page most recently entered before it. */
  ghost predicate TaggedByLastEntered(flat: seq<Tagged>, root: Id)
  {
    forall i :: 0 <= i < |flat| ==> TagIsLastEntered(flat, i, root)
  }

  ghost predicate TagIsLastEntered(flat: seq<Tagged>, i: nat, root: Id)
    requires i < |flat|
  {
    flat[i].parentPageId == LastEntered(Untag(flat[..i]), root)
  }

  /** The tag rule at one position of the second half of a concatenation. */
  lemma TaggedByLastEnteredAt(a: seq<Tagged>, b: seq<Tagged>, root: Id, i: nat)
    requires |a| <= i < |a + b| && TagIsLastEntered(b, i - |a|, LastEntered(Untag(a), root))
    ensures TagIsLastEntered(a + b, i, root)
  {
    var j := i - |a|;
    assert (a + b)[i] == b[j];
    assert (a + b)[..i] == a + b[..j];
    UntagAppend(a, b[..j]);
    LastEnteredAppend(Untag(a), Untag(b[..j]), root);
  }

  /** The tag rule at one position of the first half of a concatenation. */
  lemma TaggedByLastEnteredBefore(a: seq<Tagged>, b: seq<Tagged>, root: Id, i: nat)
    requires i < |a| && TagIsLastEntered(a, i, root)
    ensures TagIsLastEntered(a + b, i, root)
  {
    assert (a + b)[..i] == a[..i];
  }

  lemma TaggedByLastEnteredConcat(a: seq<Tagged>, b: seq<Tagged>, root: Id)
    requires TaggedByLastEntered(a, root) && TaggedByLastEntered(b, LastEntered(Untag(a), root))
    ensures TaggedByLastEntered(a + b, root)
  {
    TaggedFirstPart(a, b, root);
    TaggedSecondPart(a, b, root);
  }

  lemma TaggedFirstPart(a: seq<Tagged>, b: seq<Tagged>, root: Id)
    requires TaggedByLastEntered(a, root)
    ensures forall i :: 0 <= i < |a| ==> TagIsLastEntered(a + b, i, root)
  {
    forall i | 0 <= i < |a|
      ensures TagIsLastEntered(a + b, i, root)
    {
      TaggedByLastEnteredBefore(a, b, root, i);
    }
  }

  lemma TaggedSecondPart(a: seq<Tagged>, b: seq<Tagged>, root: Id)
    requires TaggedByLastEntered(b, LastEntered(Untag(a), root))
    ensures forall i :: |a| <= i < |a + b| ==> TagIsLastEntered(a + b, i, root)
  {
    forall i | |a| <= i < |a + b|
      ensures TagIsLastEntered(a + b, i, root)
    {
      assert TagIsLastEntered(b, i - |a|, LastEntered(Untag(a), root));
      TaggedByLastEnteredAt(a, b, root, i);
    }
  }

  /** The blocks entered by one visited block, and the page it leaves current. */
  lemma EnteringOne(b: Block, parent: Id)
    ensures LastEntered([b], parent) == (if b.hasChildren then Entered(b, parent) else parent)
  {
    assert [b][..0] == [];
  }

  /**
   * The traversal rule of `unfold_block`: the fetched blocks are the whole tree in pre-order,
   * each tagged with the page entered most recently before it, and that rule also gives the page
   * left current at the end.
   */
  lemma {:induction false} FetchIsTaggedPreorder(kids: seq<Node>, parent: Id)
    ensures var (flat, last) := FetchChildren(kids, parent);
      && Untag(flat) == Preorder(kids)
      && TaggedByLastEntered(flat, parent)
      && last == LastEntered(Preorder(kids), parent)
    decreases kids
  {
    if kids == [] {
      assert Untag([]) == [];
    } else {
      var child := kids[0];
      var here := Tagged(child.block, parent, None);
      var entered := Entered(child.block, parent);
      var (below, afterChild) :=
        if child.block.hasChildren then FetchChildren(child.kids, entered) else ([], parent);
      var subtree := if child.block.hasChildren then Preorder(child.kids) else [];
      if child.block.hasChildren {
        FetchIsTaggedPreorder(child.kids, entered);
      } else {
        assert Untag(below) == [];
      }
      EnteringOne(child.block, parent);
      var (rest, last) := FetchChildren(kids[1..], afterChild);
      FetchIsTaggedPreorder(kids[1..], afterChild);
      assert Untag([here]) == [child.block];
      assert TaggedByLastEntered([here], parent) by {
        assert [here][..0] == [];
      }
      LastEnteredAppend([child.block], subtree, parent);
      UntagAppend([here], below);
      TaggedByLastEnteredConcat([here], below, parent);
      assert afterChild == LastEntered(Untag([here] + below), parent);
      UntagAppend([here] + below, rest);
      TaggedByLastEnteredConcat([here] + below, rest, parent);
      LastEnteredAppend([child.block] + subtree, Preorder(kids[1..]), parent);
      assert Preorder(kids) == [child.block] + subtree + Preorder(kids[1..]);
    }
  }

  /**
   * The state `unfold_block`'s inner function shares across its recursive calls: the blocks
   * fetched so far and the current page.
   */
  class Unfolder {
    var blockChildren: seq<Tagged>
    var parentPageId: Id

    constructor (pageId: Id)
      ensures blockChildren == [] && parentPageId == pageId
    {
      blockChildren := [];
      parentPageId := pageId;
    }

    /**
     * `fetch_notion_block_children_recursive`: enter `node`, then tag and append each child,
     * entering those with children as they come.
     */
    method FetchRecursive(node: Node)
      modifies this
      ensures blockChildren == old(blockChildren) + FetchChildren(node.kids, Entered(node.block, old(parentPageId))).0
      ensures parentPageId == FetchChildren(node.kids, Entered(node.block, old(parentPageId))).1
      decreases node
    {
      if node.block.kind == ChildPage {
        parentPageId := node.block.id;
      }
      var kids := node.kids;
      ghost var start := parentPageId;
      ghost var before := blockChildren;
      var i := 0;
      while i < |kids|
        invariant 0 <= i <= |kids|
        invariant blockChildren + FetchChildren(kids[i..], parentPageId).0 == before + FetchChildren(kids, start).0
        invariant FetchChildren(kids[i..], parentPageId).1 == FetchChildren(kids, start).1
      {
        var result := kids[i];
        ghost var current := parentPageId;
        ghost var prev := blockChildren;
        var here := Tagged(result.block, parentPageId, None);
        blockChildren := blockChildren + [here];
        ghost var below: seq<Tagged> := [];
        if result.block.hasChildren {
          FetchRecursive(result);
          below := FetchChildren(result.kids, Entered(result.block, current)).0;
        }
        FetchAt(kids, i, current, below, parentPageId, prev);
        i := i + 1;
      }
      assert kids[i..] == [];
    }
  }

  /**
   * One step of `FetchChildren` at position `i`, given what entering the block there yields,
   * behind the blocks `prev` already fetched.
   */
  lemma FetchAt(kids: seq<Node>, i: nat, current: Id, below: seq<Tagged>, after: Id, prev: seq<Tagged>)
    requires i < |kids|
    requires (below, after) == if kids[i].block.hasChildren
                               then FetchChildren(kids[i].kids, Entered(kids[i].block, current))
                               else ([], current)
    ensures prev + [Tagged(kids[i].block, current, None)] + below + FetchChildren(kids[i + 1..], after).0
            == prev + FetchChildren(kids[i..], current).0
    ensures FetchChildren(kids[i..], current).1 == FetchChildren(kids[i + 1..], after).1
  {
    assert kids[i..][0] == kids[i] && kids[i..][1..] == kids[i + 1..];
    var here := [Tagged(kids[i].block, current, None)];
    var rest := FetchChildren(kids[i + 1..], after).0;
    assert FetchChildren(kids[i..], current).0 == here + below + rest;
    assert prev + here + below + rest == prev + (here + below + rest);
  }

  /** `unfold_block`, with the shared state of its inner function held by an `Unfolder`. */
  method UnfoldBlock(root: Node) returns (r: Option<seq<Tagged>>)
    ensures r == UnfoldBlockSpec(root)
  {
    if root.block.kind != ChildPage {
      return None;
    }
    var unfolder := new Unfolder(root.block.id);
    assert Entered(root.block, unfolder.parentPageId) == root.block.id;
    unfolder.FetchRecursive(root);
    assert unfolder.blockChildren == [] + FetchChildren(root.kids, root.block.id).0;
    assert [] + FetchChildren(root.kids, root.block.id).0 == FetchChildren(root.kids, root.block.id).0;
    return Some(unfolder.blockChildren);
  }

  /** The whole contract of `unfold_block` on a page: pre-order, last-entered tags. */
  lemma UnfoldBlockTraversal(root: Node)
    requires root.block.kind == ChildPage
    ensures UnfoldBlockSpec(root).Some?
    ensures Untag(UnfoldBlockSpec(root).value) == Preorder(root.kids)
    ensures TaggedByLastEntered(UnfoldBlockSpec(root).value, root.block.id)
  {
    FetchIsTaggedPreorder(root.kids, root.block.id);
  }

  /** A (page id, block id) pair a unit is found at. */
  type Source = (Id, Id)

  /** The sources one block adds for `text`: one per bold-and-italic run with that text. */
  function RunHits(t: Tagged, runs: seq<RichText>, text: string): (r: seq<Source>)
    ensures forall k :: 0 <= k < |r| ==> r[k] == (t.parentPageId, t.block.id)
    ensures |r| <= |runs|
  {
    if runs == [] then []
    else (if Annotated(runs[0]) && runs[0].plainText == text then [(t.parentPageId, t.block.id)] else [])
         + RunHits(t, runs[1..], text)
  }

  function BlockHits(t: Tagged, text: string): seq<Source>
  {
    if t.block.kind == BulletedListItem then RunHits(t, t.block.richText, text) else []
  }

  /** Every source of `text` over the blocks, in block order. */
  function Occurrences(blocks: seq<Tagged>, text: string): seq<Source>
  {
    if blocks == [] then [] else BlockHits(blocks[0], text) + Occurrences(blocks[1..], text)
  }

  lemma {:induction false} OccurrencesAppend(a: seq<Tagged>, b: seq<Tagged>, text: string)
    ensures Occurrences(a + b, text) == Occurrences(a, text) + Occurrences(b, text)
  {
    if a == [] {
      assert a + b == b;
    } else {
      assert (a + b)[1..] == a[1..] + b;
      OccurrencesAppend(a[1..], b, text);
    }
  }

  lemma {:induction false} RunHitsAppend(t: Tagged, a: seq<RichText>, b: seq<RichText>, text: string)
    ensures RunHits(t, a + b, text) == RunHits(t, a, text) + RunHits(t, b, text)
  {
    if a == [] {
      assert a + b == b;
    } else {
      assert (a + b)[1..] == a[1..] + b;
      RunHitsAppend(t, a[1..], b, text);
    }
  }

  /** The value of a grouping for `text`: its list, or the empty list a `defaultdict` shows. */
  function Lookup(units: map<string, seq<Source>>, text: string): seq<Source>
  {
    if text in units then units[text] else []
  }

  /** The sources of `text` after one more run of a block. */
  lemma RunHitsSnoc(t: Tagged, runs: seq<RichText>, j: nat, text: string)
    requires j < |runs|
    ensures RunHits(t, runs[..j + 1], text)
            == RunHits(t, runs[..j], text)
               + (if Annotated(runs[j]) && runs[j].plainText == text then [(t.parentPageId, t.block.id)] else [])
  {
    assert runs[..j + 1] == runs[..j] + [runs[j]];
    RunHitsAppend(t, runs[..j], [runs[j]], text);
  }

  /** The sources of `text` after one more block. */
  lemma OccurrencesSnoc(blocks: seq<Tagged>, i: nat, text: string)
    requires i < |blocks|
    ensures Occurrences(blocks[..i + 1], text) == Occurrences(blocks[..i], text) + BlockHits(blocks[i], text)
  {
    assert blocks[..i + 1] == blocks[..i] + [blocks[i]];
    OccurrencesAppend(blocks[..i], [blocks[i]], text);
  }

  /** One `append` to a `defaultdict` list: only the list of `key` grows, by `source`. */
  lemma AppendSourceLookup(m: map<string, seq<Source>>, key: string, source: Source, text: string)
    ensures Lookup(m[key := Lookup(m, key) + [source]], text) == Lookup(m, text) + (if key == text then [source] else [])
  {
  }

  /** The loop invariant of `AddBlockRuns` carried over one run, for one text. */
  lemma RunStep(units: seq<Source>, before: seq<Source>, after: seq<Source>,
                block: Tagged, runs: seq<RichText>, j: nat, text: string)
    requires j < |runs|
    requires before == units + RunHits(block, runs[..j], text)
    requires after == before
               + (if Annotated(runs[j]) && runs[j].plainText == text then [(block.parentPageId, block.block.id)] else [])
    ensures after == units + RunHits(block, runs[..j + 1], text)
  {
    RunHitsSnoc(block, runs, j, text);
  }

  /** The body of the inner loop: a bold-and-italic run appends the source to its text's list. */
  method AddRun(units: map<string, seq<Source>>, run: RichText, source: Source) returns (r: map<string, seq<Source>>)
    requires forall text :: text in units ==> units[text] != []
    ensures forall text :: text in r ==> r[text] != []
    ensures forall text :: Lookup(r, text) == Lookup(units, text) + (if Annotated(run) && run.plainText == text then [source] else [])
  {
    r := units;
    if run.bold && run.italic {
      r := r[run.plainText := Lookup(r, run.plainText) + [source]];
      forall text ensures Lookup(r, text) == Lookup(units, text) + (if run.plainText == text then [source] else []) {
        AppendSourceLookup(units, run.plainText, source, text);
      }
    }
  }

  /** The inner loop of `extract_units_from_blocks`: one block's runs added to the grouping. */
  method AddBlockRuns(units: map<string, seq<Source>>, block: Tagged) returns (r: map<string, seq<Source>>)
    requires block.block.kind == BulletedListItem
    requires forall text :: text in units ==> units[text] != []
    ensures forall text :: text in r ==> r[text] != []
    ensures forall text :: Lookup(r, text) == Lookup(units, text) + BlockHits(block, text)
  {
    var runs := block.block.richText;
    r := units;
    var j := 0;
    while j < |runs|
      invariant 0 <= j <= |runs|
      invariant forall text :: text in r ==> r[text] != []
      invariant forall text :: Lookup(r, text) == Lookup(units, text) + RunHits(block, runs[..j], text)
    {
      ghost var before := r;
      r := AddRun(r, runs[j], (block.parentPageId, block.block.id));
      forall text ensures Lookup(r, text) == Lookup(units, text) + RunHits(block, runs[..j + 1], text) {
        RunStep(Lookup(units, text), Lookup(before, text), Lookup(r, text), block, runs, j, text);
      }
      j := j + 1;
    }
    assert runs[..j] == runs;
  }

  /**
   * `extract_units_from_blocks`: for every bulleted list item and every bold-and-italic run in
   * it, the block's (page, block) pair is appended to the list of the run's text.
   */
  method ExtractUnitsFromBlocks(blocks: seq<Tagged>) returns (units: map<string, seq<Source>>)
    ensures forall text :: text in units ==> units[text] != []
    ensures forall text :: Lookup(units, text) == Occurrences(blocks, text)
  {
    units := map[];
    var i := 0;
    while i < |blocks|
      invariant 0 <= i <= |blocks|
      invariant forall text :: text in units ==> units[text] != []
      invariant forall text :: Lookup(units, text) == Occurrences(blocks[..i], text)
    {
      var block := blocks[i];
      forall text ensures Occurrences(blocks[..i + 1], text) == Occurrences(blocks[..i], text) + BlockHits(block, text) {
        OccurrencesSnoc(blocks, i, text);
      }
      if block.block.kind == BulletedListItem {
        units := AddBlockRuns(units, block);
      }
      i := i + 1;
    }
    assert blocks[..i] == blocks;
  }

  /** A text has sources exactly when some bulleted block has a bold-and-italic run with it. */
  lemma {:induction false} OccurrencesNonEmpty(blocks: seq<Tagged>, text: string)
    ensures Occurrences(blocks, text) != [] <==>
      exists i, j :: 0 <= i < |blocks| && blocks[i].block.kind == BulletedListItem
                     && 0 <= j < |blocks[i].block.richText|
                     && Annotated(blocks[i].block.richText[j]) && blocks[i].block.richText[j].plainText == text
  {
    if blocks != [] {
      OccurrencesNonEmpty(blocks[1..], text);
      RunHitsNonEmpty(blocks[0], blocks[0].block.richText, text);
      if exists i, j :: 0 <= i < |blocks| && blocks[i].block.kind == BulletedListItem
                        && 0 <= j < |blocks[i].block.richText|
                        && Annotated(blocks[i].block.richText[j]) && blocks[i].block.richText[j].plainText == text {
        var i, j :| 0 <= i < |blocks| && blocks[i].block.kind == BulletedListItem
                    && 0 <= j < |blocks[i].block.richText|
                    && Annotated(blocks[i].block.richText[j]) && blocks[i].block.richText[j].plainText == text;
        if i > 0 {
          assert blocks[1..][i - 1] == blocks[i];
        }
      } else {
        assert forall i :: 0 <= i < |blocks[1..]| ==> blocks[1..][i] == blocks[i + 1];
      }
    }
  }

  lemma {:induction false} RunHitsNonEmpty(t: Tagged, runs: seq<RichText>, text: string)
    ensures RunHits(t, runs, text) != [] <==>
      exists j :: 0 <= j < |runs| && Annotated(runs[j]) && runs[j].plainText == text
  {
    if runs != [] {
      RunHitsNonEmpty(t, runs[1..], text);
      assert forall j :: 1 <= j < |runs| ==> runs[j] == runs[1..][j - 1];
    }
  }

  /** A block that is not a bulleted list item leaves the grouping as it was. */
  lemma OtherBlocksAddNothing(blocks: seq<Tagged>, t: Tagged, text: string)
    requires t.block.kind != BulletedListItem
    ensures Occurrences(blocks + [t], text) == Occurrences(blocks, text)
  {
    OccurrencesAppend(blocks, [t], text);
    assert Occurrences([t], text) == BlockHits(t, text) + Occurrences([], text);
  }

  /**
   * Every qualifying run counts, not only the first: a bulleted block adds one source per
   * bold-and-italic run with the text, so two such runs add two.
   */
  lemma {:induction false} EveryRunCounts(t: Tagged, runs: seq<RichText>, j1: nat, j2: nat, text: string)
    requires j1 < j2 < |runs|
    requires Annotated(runs[j1]) && runs[j1].plainText == text
    requires Annotated(runs[j2]) && runs[j2].plainText == text
    ensures |RunHits(t, runs, text)| >= 2
  {
    RunHitsAppend(t, runs[..j2], runs[j2..], text);
    assert runs[..j2] + runs[j2..] == runs;
    RunHitsNonEmpty(t, runs[..j2], text);
    assert runs[..j2][j1] == runs[j1];
    assert runs[j2..][0] == runs[j2];
    RunHitsNonEmpty(t, runs[j2..], text);
  }

  /**
   * The link `append_linked_block_to_target_block` writes: one paragraph whose only run is the
   * unit, linked to the source block inside its page.
   */
  function LinkedParagraph(unit: string, sourceBlockId: Id, sourcePageId: Id): (c: Content)
    ensures c.Paragraph? && |c.richText| == 1 && c.richText[0].content == unit && c.richText[0].link.Some?
  {
    Paragraph([TextRun(unit, Some(NotionBase + sourcePageId + ViewParam + sourceBlockId))])
  }

  /** The link parses back to the source page and block, the ids used as given. */
  lemma LinkedParagraphRoundTrip(unit: string, sourceBlockId: Id, sourcePageId: Id)
    requires '?' !in sourcePageId
    ensures ParseLink(LinkedParagraph(unit, sourceBlockId, sourcePageId).richText[0].link.value)
            == Some((sourcePageId, sourceBlockId))
  {
    LinkRoundTrip(sourcePageId, sourceBlockId);
  }

  /** With ids already cleaned, the older link and the newer unit link are the same string. */
  lemma SameLinkFormat(unitBlock: Tagged)
    requires unitBlock.unit.Some?
    ensures var c := LinkedParagraph(unitBlock.unit.value, CleanId(unitBlock.block.id), CleanId(unitBlock.parentPageId));
      c.richText[0].link == Some(UrlForExtractedUnit(unitBlock).value)
  {
  }
}
