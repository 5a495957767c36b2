/** What the walk of `TreeWalk` guarantees about the two lists it returns. */
module TreeWalkFacts {
  import opened Common
  import opened Blocks
  import opened SyncStatus
  import opened TreeWalk

  /** The child pages among emitted blocks, in order. */
  function PagesOf(s: seq<Tagged>): (r: seq<Tagged>)
    ensures forall t :: t in r <==> t in s && IsPage(t)
  {
    if s == [] then [] else (if IsPage(s[0]) then [s[0]] else []) + PagesOf(s[1..])
  }

  lemma {:induction false} PagesOfAppend(a: seq<Tagged>, b: seq<Tagged>)
    ensures PagesOf(a + b) == PagesOf(a) + PagesOf(b)
  {
    if a == [] {
      assert a + b == b;
    } else {
      assert (a + b)[1..] == a[1..] + b;
      PagesOfAppend(a[1..], b);
    }
  }

  /** The commit list is the pages of the emitted list, and every emitted page is unsynced. */
  ghost predicate PagesConsistent(w: Walk)
  {
    && w.pages == PagesOf(w.flat)
    && forall t :: t in w.flat && IsPage(t) ==> GetSyncStatus(t.block.props) == Ok(false)
  }

  lemma JoinConsistent(a: Walk, b: Walk)
    requires PagesConsistent(a) && PagesConsistent(b)
    ensures PagesConsistent(Join(a, b))
  {
    PagesOfAppend(a.flat, b.flat);
  }

  /**
   * A walk that completes collects exactly the child pages it emits, in the order it emits
   * them, and every one of them was found unsynced.
   */
  lemma {:induction false} WalkCollectsEmittedPages(kids: seq<Node>, parent: Id)
    requires WalkChildren(kids, parent).Ok?
    ensures PagesConsistent(WalkChildren(kids, parent).value)
    decreases kids
  {
    if kids != [] {
      var child := kids[0];
      var synced := Skips(child.block).value;
      if synced {
        WalkCollectsEmittedPages(kids[1..], parent);
      } else {
        var next := Next(child.block, parent);
        var here := Here(child.block, parent);
        assert PagesConsistent(here);
        var below := Nothing;
        if child.block.hasChildren {
          WalkCollectsEmittedPages(child.kids, next);
          below := WalkChildren(child.kids, next).value;
        }
        WalkCollectsEmittedPages(kids[1..], next);
        JoinConsistent(here, below);
        JoinConsistent(Join(here, below), WalkChildren(kids[1..], next).value);
      }
    }
  }

  /** The ids of the child pages among `s`. */
  ghost function PageIds(s: seq<Tagged>): set<Id>
  {
    set t | t in s && IsPage(t) :: t.block.id
  }

  /**
   * Every emitted block is tagged with the page the walk started from or with the id of a
   * child page emitted before it.
   */
  ghost predicate TaggedFromEarlierPages(flat: seq<Tagged>, start: Id)
  {
    forall i :: 0 <= i < |flat| ==> flat[i].parentPageId == start || flat[i].parentPageId in PageIds(flat[..i])
  }

  lemma TaggedConcat(a: seq<Tagged>, b: seq<Tagged>, start: Id, mid: Id)
    requires TaggedFromEarlierPages(a, start) && TaggedFromEarlierPages(b, mid)
    requires mid == start || mid in PageIds(a)
    ensures TaggedFromEarlierPages(a + b, start)
  {
    forall i | |a| <= i < |a + b|
      ensures (a + b)[i].parentPageId == start || (a + b)[i].parentPageId in PageIds((a + b)[..i])
    {
      var j := i - |a|;
      assert (a + b)[i] == b[j];
      assert (a + b)[..i] == a + b[..j];
      assert PageIds(a) <= PageIds(a + b[..j]) && PageIds(b[..j]) <= PageIds(a + b[..j]);
    }
    assert forall i | 0 <= i < |a| :: (a + b)[..i] == a[..i] && (a + b)[i] == a[i];
  }

  /**
   * The tag rule of the walk: a block's page is the starting page or a child page emitted
   * earlier; the rebinding is never to a page that was skipped or not yet reached.
   */
  lemma {:induction false} WalkTagsFromEarlierPages(kids: seq<Node>, parent: Id)
    requires WalkChildren(kids, parent).Ok?
    ensures TaggedFromEarlierPages(WalkChildren(kids, parent).value.flat, parent)
    decreases kids
  {
    if kids != [] {
      var child := kids[0];
      var synced := Skips(child.block).value;
      if synced {
        WalkTagsFromEarlierPages(kids[1..], parent);
      } else {
        var next := Next(child.block, parent);
        var here := Here(child.block, parent);
        assert next == parent || next in PageIds(here.flat);
        var below := Nothing;
        if child.block.hasChildren {
          WalkTagsFromEarlierPages(child.kids, next);
          below := WalkChildren(child.kids, next).value;
        }
        var rest := WalkChildren(kids[1..], next).value;
        WalkTagsFromEarlierPages(kids[1..], next);
        TaggedConcat(here.flat, below.flat, parent, next);
        assert PageIds(here.flat) <= PageIds(here.flat + below.flat);
        TaggedConcat(here.flat + below.flat, rest.flat, parent, next);
        assert Join(Join(here, below), rest).flat == here.flat + below.flat + rest.flat;
      }
    }
  }

  /** The walk of a list whose first block is visited, as the join of its three parts. */
  lemma VisitedHead(kids: seq<Node>, parent: Id)
    requires kids != [] && Skips(kids[0].block) == Ok(false)
    requires kids[0].block.hasChildren ==> WalkChildren(kids[0].kids, Next(kids[0].block, parent)).Ok?
    requires WalkChildren(kids[1..], Next(kids[0].block, parent)).Ok?
    ensures var next := Next(kids[0].block, parent);
      var below := if kids[0].block.hasChildren then WalkChildren(kids[0].kids, next).value else Nothing;
      WalkChildren(kids, parent) == Ok(Join(Join(Here(kids[0].block, parent), below), WalkChildren(kids[1..], next).value))
  {
  }

  /** The flat list of a visited head: its block, the blocks below it, then the later siblings'. */
  lemma UntagJoin3(here: Walk, below: Walk, rest: Walk)
    ensures Untag(Join(Join(here, below), rest).flat) == Untag(here.flat) + Untag(below.flat) + Untag(rest.flat)
  {
    UntagAppend(here.flat, below.flat);
    UntagAppend(here.flat + below.flat, rest.flat);
  }

  /**
   * The emitted blocks come out in pre-order: they are the pre-order of the tree with some
   * blocks (the synced pages and everything below them) left out.
   */
  lemma {:induction false} WalkIsPreorder(kids: seq<Node>, parent: Id)
    requires WalkChildren(kids, parent).Ok?
    ensures IsSubsequence(Untag(WalkChildren(kids, parent).value.flat), Preorder(kids))
    decreases kids
  {
    if kids == [] {
      assert Untag([]) == [];
    } else {
      var child := kids[0];
      var subtree := if child.block.hasChildren then Preorder(child.kids) else [];
      assert Preorder(kids) == [child.block] + subtree + Preorder(kids[1..]);
      if Skips(child.block).value {
        WalkIsPreorder(kids[1..], parent);
        SubsequenceExtendLeft(Untag(WalkChildren(kids[1..], parent).value.flat), Preorder(kids[1..]),
                              [child.block] + subtree);
      } else {
        var next := Next(child.block, parent);
        var here := Here(child.block, parent);
        var below := Nothing;
        if child.block.hasChildren {
          WalkIsPreorder(child.kids, next);
          below := WalkChildren(child.kids, next).value;
        }
        assert IsSubsequence(Untag(below.flat), subtree);
        var rest := WalkChildren(kids[1..], next).value;
        WalkIsPreorder(kids[1..], next);
        VisitedHead(kids, parent);
        UntagJoin3(here, below, rest);
        SubsequenceReflexive([child.block]);
        assert Untag(here.flat) == [child.block];
        SubsequenceConcat(Untag(here.flat), [child.block], Untag(below.flat), subtree);
        SubsequenceConcat(Untag(here.flat) + Untag(below.flat), [child.block] + subtree,
                          Untag(rest.flat), Preorder(kids[1..]));
      }
    }
  }

  /** A child page whose status reads as synced: the walk leaves it out with its subtree. */
  predicate SyncedPage(b: Block)
  {
    b.kind == ChildPage && GetSyncStatus(b.props) == Ok(true)
  }

  /**
   * Reference for the emitted blocks: the tree in pre-order with every synced child page and
   * its subtree removed, descending only into blocks that report children.
   */
  function Pruned(kids: seq<Node>): seq<Block>
    decreases kids
  {
    if kids == [] then []
    else if SyncedPage(kids[0].block) then Pruned(kids[1..])
    else [kids[0].block] + (if kids[0].block.hasChildren then Pruned(kids[0].kids) else []) + Pruned(kids[1..])
  }

  /** A walk that completes emits exactly the pruned tree, in order. */
  lemma {:induction false} WalkIsPruned(kids: seq<Node>, parent: Id)
    requires WalkChildren(kids, parent).Ok?
    ensures Untag(WalkChildren(kids, parent).value.flat) == Pruned(kids)
    decreases kids
  {
    if kids == [] {
      assert Untag([]) == [];
    } else {
      var child := kids[0];
      if Skips(child.block).value {
        WalkIsPruned(kids[1..], parent);
      } else {
        var next := Next(child.block, parent);
        var here := Here(child.block, parent);
        var below := Nothing;
        if child.block.hasChildren {
          WalkIsPruned(child.kids, next);
          below := WalkChildren(child.kids, next).value;
        } else {
          assert Untag(below.flat) == [];
        }
        var rest := WalkChildren(kids[1..], next).value;
        WalkIsPruned(kids[1..], next);
        VisitedHead(kids, parent);
        UntagJoin3(here, below, rest);
        assert Untag(here.flat) == [child.block];
      }
    }
  }

  /** Reference for the current page: the last unsynced child page among `kids`, or `parent`. */
  function LastUnsynced(kids: seq<Node>, parent: Id): Id
    decreases |kids|
  {
    if kids == [] then parent
    else
      var last := kids[|kids| - 1].block;
      if last.kind == ChildPage && GetSyncStatus(last.props) == Ok(false) then last.id
      else LastUnsynced(kids[..|kids| - 1], parent)
  }

  /** `LastUnsynced` read from the front: an unsynced page first becomes the fallback. */
  lemma {:induction false} LastUnsyncedCons(x: Node, kids: seq<Node>, parent: Id)
    ensures LastUnsynced([x] + kids, parent) ==
            LastUnsynced(kids, if x.block.kind == ChildPage && GetSyncStatus(x.block.props) == Ok(false) then x.block.id else parent)
    decreases |kids|
  {
    var all := [x] + kids;
    if kids != [] {
      var n := |kids| - 1;
      assert all[|all| - 1] == kids[n];
      assert all[..|all| - 1] == [x] + kids[..n];
      LastUnsyncedCons(x, kids[..n], parent);
    } else {
      assert all[..0] == [];
    }
  }

  lemma JoinNothing(w: Walk)
    ensures Join(Nothing, w) == w
  {
    assert [] + w.flat == w.flat && [] + w.pages == w.pages;
  }

  /**
   * The walk of a concatenation: the walk of the first part, then the walk of the second part
   * from the page the first part left current.
   */
  lemma {:induction false} WalkSplit(a: seq<Node>, b: seq<Node>, parent: Id)
    requires WalkChildren(a + b, parent).Ok?
    ensures WalkChildren(a, parent).Ok?
    ensures WalkChildren(a + b, parent) == Then(WalkChildren(a, parent).value, WalkChildren(b, LastUnsynced(a, parent)))
    decreases a
  {
    if a == [] {
      assert a + b == b;
      JoinNothing(WalkChildren(b, parent).value);
    } else {
      var x := a[0];
      assert (a + b)[0] == x && (a + b)[1..] == a[1..] + b;
      assert a == [x] + a[1..];
      LastUnsyncedCons(x, a[1..], parent);
      if Skips(x.block).value {
        assert WalkChildren(a + b, parent) == WalkChildren(a[1..] + b, parent);
        assert WalkChildren(a, parent) == WalkChildren(a[1..], parent);
        WalkSplit(a[1..], b, parent);
      } else {
        var next := Next(x.block, parent);
        var head := Join(Here(x.block, parent), if x.block.hasChildren then WalkChildren(x.kids, next).value else Nothing);
        assert WalkChildren(a + b, parent) == Then(head, WalkChildren(a[1..] + b, next));
        WalkSplit(a[1..], b, next);
        assert WalkChildren(a, parent) == Then(head, WalkChildren(a[1..], next));
        ThenJoin(head, WalkChildren(a[1..], next).value, WalkChildren(b, LastUnsynced(a[1..], next)));
      }
    }
  }

  /** The walk of a list whose first block is emitted: that block, then the walk below it. */
  lemma EmittedHead(kids: seq<Node>, current: Id)
    requires kids != [] && WalkChildren(kids, current).Ok? && !SyncedPage(kids[0].block)
    ensures Skips(kids[0].block) == Ok(false)
    ensures var flat := WalkChildren(kids, current).value.flat;
      0 < |flat| && flat[0] == Tagged(kids[0].block, current, None)
    ensures var flat := WalkChildren(kids, current).value.flat;
      var start := if kids[0].block.kind == ChildPage then kids[0].block.id else current;
      kids[0].block.hasChildren ==>
        && WalkChildren(kids[0].kids, start).Ok?
        && 1 + |WalkChildren(kids[0].kids, start).value.flat| <= |flat|
        && flat[1..1 + |WalkChildren(kids[0].kids, start).value.flat|] == WalkChildren(kids[0].kids, start).value.flat
  {
    var child := kids[0];
    var next := Next(child.block, current);
    var below := if child.block.hasChildren then WalkChildren(child.kids, next).value else Nothing;
    VisitedHead(kids, current);
    var rest := WalkChildren(kids[1..], next).value;
    assert WalkChildren(kids, current).value.flat == [Tagged(child.block, current, None)] + below.flat + rest.flat;
  }

  /**
   * The tag rule for every list: an emitted `kids[i]` sits right after the pruned blocks before
   * it and carries the last unsynced child page among `kids[..i]`, or `parent` when there is
   * none.
   */
  lemma TagOfSibling(kids: seq<Node>, parent: Id, i: nat)
    requires WalkChildren(kids, parent).Ok?
    requires i < |kids| && !SyncedPage(kids[i].block)
    ensures var flat := WalkChildren(kids, parent).value.flat;
      var k := |Pruned(kids[..i])|;
      k < |flat| && flat[k] == Tagged(kids[i].block, LastUnsynced(kids[..i], parent), None)
  {
    var current := LastUnsynced(kids[..i], parent);
    WalkAt(kids, i, parent);
    var tail := kids[i..];
    assert tail[0] == kids[i];
    EmittedHead(tail, current);
    ConcatAt(WalkChildren(kids[..i], parent).value.flat, WalkChildren(tail, current).value.flat, 0);
  }

  /**
   * Right after an emitted `kids[i]` with children comes the walk of those children, started
   * from `kids[i]`'s own id when it is a page and from the page current at `kids[i]` otherwise.
   */
  lemma ChildrenFollowSibling(kids: seq<Node>, parent: Id, i: nat)
    requires WalkChildren(kids, parent).Ok?
    requires i < |kids| && !SyncedPage(kids[i].block) && kids[i].block.hasChildren
    ensures var flat := WalkChildren(kids, parent).value.flat;
      var k := |Pruned(kids[..i])|;
      var current := LastUnsynced(kids[..i], parent);
      var start := if kids[i].block.kind == ChildPage then kids[i].block.id else current;
      && WalkChildren(kids[i].kids, start).Ok?
      && k + 1 + |WalkChildren(kids[i].kids, start).value.flat| <= |flat|
      && flat[k + 1..k + 1 + |WalkChildren(kids[i].kids, start).value.flat|] == WalkChildren(kids[i].kids, start).value.flat
  {
    var current := LastUnsynced(kids[..i], parent);
    WalkAt(kids, i, parent);
    var tail := kids[i..];
    assert tail[0] == kids[i];
    EmittedHead(tail, current);
    var start := if kids[i].block.kind == ChildPage then kids[i].block.id else current;
    ChildrenAt(WalkChildren(kids[..i], parent).value.flat, WalkChildren(tail, current).value.flat,
               WalkChildren(kids[i].kids, start).value.flat);
  }



  lemma ChildrenAt<T>(before: seq<T>, after: seq<T>, sub: seq<T>)
    requires 1 + |sub| <= |after| && after[1..1 + |sub|] == sub
    ensures |before| + 1 + |sub| <= |before + after|
    ensures (before + after)[|before| + 1..|before| + 1 + |sub|] == sub
  {
    assert (before + after)[|before| + 1..|before| + 1 + |sub|] == after[1..1 + |sub|];
  }

  /** `WalkSplit` at a position of one list. */
  lemma WalkAt(kids: seq<Node>, i: nat, parent: Id)
    requires WalkChildren(kids, parent).Ok? && i <= |kids|
    ensures WalkChildren(kids[..i], parent).Ok? && WalkChildren(kids[i..], LastUnsynced(kids[..i], parent)).Ok?
    ensures |WalkChildren(kids[..i], parent).value.flat| == |Pruned(kids[..i])|
    ensures WalkChildren(kids, parent).value.flat ==
            WalkChildren(kids[..i], parent).value.flat + WalkChildren(kids[i..], LastUnsynced(kids[..i], parent)).value.flat
  {
    assert kids[..i] + kids[i..] == kids;
    WalkSplit(kids[..i], kids[i..], parent);
    WalkIsPruned(kids[..i], parent);
  }

  lemma ConcatAt<T>(a: seq<T>, b: seq<T>, n: nat)
    requires n < |b|
    ensures (a + b)[|a|] == b[0]
    ensures (a + b)[|a| + 1..|a| + 1 + n] == b[1..1 + n]
  {
  }

  /** No page the walk reaches is synced, and every such page's status can be read. */
  ghost predicate NoSyncedPages(kids: seq<Node>)
    decreases kids
  {
    kids != [] ==>
      && Skips(kids[0].block) == Ok(false)
      && (kids[0].block.hasChildren ==> NoSyncedPages(kids[0].kids))
      && NoSyncedPages(kids[1..])
  }

  /** With no synced page anywhere, the walk emits the whole tree in pre-order. */
  lemma {:induction false} WalkWithoutSyncedPagesIsFullPreorder(kids: seq<Node>, parent: Id)
    requires NoSyncedPages(kids)
    ensures WalkChildren(kids, parent).Ok?
    ensures Untag(WalkChildren(kids, parent).value.flat) == Preorder(kids)
    decreases kids
  {
    if kids == [] {
      assert Untag([]) == [];
    } else {
      var child := kids[0];
      var next := Next(child.block, parent);
      var here := Here(child.block, parent);
      var below := Nothing;
      if child.block.hasChildren {
        WalkWithoutSyncedPagesIsFullPreorder(child.kids, next);
        below := WalkChildren(child.kids, next).value;
      } else {
        assert Untag(below.flat) == [];
      }
      WalkWithoutSyncedPagesIsFullPreorder(kids[1..], next);
      var rest := WalkChildren(kids[1..], next).value;
      VisitedHead(kids, parent);
      UntagJoin3(here, below, rest);
      assert Untag(here.flat) == [child.block];
    }
  }

  /**
   * The rebinding reaches later siblings: after an unsynced page with no children, the next
   * sibling block is tagged with that page although it does not lie inside it.
   */
  lemma SiblingAfterPageTaggedWithPage(page: Block, leaf: Block, root: Id)
    requires page.kind == ChildPage && !page.hasChildren && GetSyncStatus(page.props) == Ok(false)
    requires leaf.kind != ChildPage && !leaf.hasChildren
    ensures WalkChildren([Node(page, []), Node(leaf, [])], root) ==
            Ok(Walk([Tagged(page, root, None), Tagged(leaf, page.id, None)], [Tagged(page, root, None)]))
  {
    var kids := [Node(page, []), Node(leaf, [])];
    var tail := [Node(leaf, [])];
    assert kids[1..] == tail;
    assert tail[1..] == [];
    assert WalkChildren(tail[1..], page.id) == Ok(Nothing);
    VisitedHead(tail, page.id);
    var leafWalk := Walk([Tagged(leaf, page.id, None)], []);
    assert Here(leaf, page.id) == leafWalk;
    assert Join(Join(leafWalk, Nothing), Nothing) == leafWalk;
    VisitedHead(kids, root);
    var pageWalk := Walk([Tagged(page, root, None)], [Tagged(page, root, None)]);
    assert Here(page, root) == pageWalk;
    assert WalkChildren(kids[1..], Next(page, root)).value == leafWalk;
    assert pageWalk.flat + leafWalk.flat == [Tagged(page, root, None), Tagged(leaf, page.id, None)];
    assert Join(Join(pageWalk, Nothing), leafWalk) == Walk(pageWalk.flat + leafWalk.flat, pageWalk.pages);
  }
}
