/**
 * The walk over a context page: every block below it in pre-order, each tagged with the page
 * it is linked through, skipping nested pages that are already synced, and collecting the
 * nested pages whose extraction time must be committed afterwards.
 */
module TreeWalk {
  import opened Common
  import opened Blocks
  import opened SyncStatus

  /** The two lists the walk fills: every emitted block, and the pages to commit. */
  datatype Walk = Walk(flat: seq<Tagged>, pages: seq<Tagged>)

  const Nothing: Walk := Walk([], [])

  function Join(a: Walk, b: Walk): Walk
  {
    Walk(a.flat + b.flat, a.pages + b.pages)
  }

  /** What is already collected, followed by the outcome of the rest of the walk. */
  function Then(done: Walk, r: Result<Walk, Error>): Result<Walk, Error>
  {
    match r
    case Ok(w) => Ok(Join(done, w))
    case Err(e) => Err(e)
  }

  lemma JoinAssociative(a: Walk, b: Walk, c: Walk)
    ensures Join(Join(a, b), c) == Join(a, Join(b, c))
  {
    assert (a.flat + b.flat) + c.flat == a.flat + (b.flat + c.flat);
    assert (a.pages + b.pages) + c.pages == a.pages + (b.pages + c.pages);
  }

  lemma ThenJoin(a: Walk, b: Walk, r: Result<Walk, Error>)
    ensures Then(a, Then(b, r)) == Then(Join(a, b), r)
  {
    if r.Ok? { JoinAssociative(a, b, r.value); }
  }

  predicate IsPage(t: Tagged)
  {
    t.block.kind == ChildPage
  }

  /** Whether the walk skips a child: only pages are looked up, and a lookup may fail. */
  function Skips(b: Block): Result<bool, Error>
  {
    if b.kind == ChildPage then GetSyncStatus(b.props) else Ok(false)
  }

  /** The current page after visiting `b`: rebound to `b` when it is a page. */
  function Next(b: Block, parent: Id): Id
  {
    if b.kind == ChildPage then b.id else parent
  }

  /** What visiting `b` adds to the two lists itself. */
  function Here(b: Block, parent: Id): Walk
  {
    var tagged := Tagged(b, parent, None);
    Walk([tagged], if b.kind == ChildPage then [tagged] else [])
  }

  /**
   * The walk of a list of sibling blocks whose current page is `parent`. Each block is tagged
   * with the current page. A synced child page is left out with everything under it; an
   * unsynced one is emitted and collected, and becomes the current page for its own children
   * AND for the siblings after it. Any error ends the walk.
   */
  function WalkChildren(kids: seq<Node>, parent: Id): Result<Walk, Error>
    decreases kids
  {
    if kids == [] then Ok(Nothing)
    else
      var child := kids[0];
      match Skips(child.block)
      case Err(e) => Err(e)
      case Ok(synced) =>
        if synced then WalkChildren(kids[1..], parent)
        else
          var next := Next(child.block, parent);
          match (if child.block.hasChildren then WalkChildren(child.kids, next) else Ok(Nothing))
          case Err(e) => Err(e)
          case Ok(below) => Then(Join(Here(child.block, parent), below), WalkChildren(kids[1..], next))
  }

  /** One step of `WalkChildren` at position `i`, for the loop that walks the same list. */
  lemma WalkChildrenAt(kids: seq<Node>, i: nat, parent: Id)
    requires i < |kids|
    ensures var child := kids[i];
      WalkChildren(kids[i..], parent) ==
        match Skips(child.block)
        case Err(e) => Err(e)
        case Ok(synced) =>
          if synced then WalkChildren(kids[i + 1..], parent)
          else
            var next := Next(child.block, parent);
            match (if child.block.hasChildren then WalkChildren(child.kids, next) else Ok(Nothing))
            case Err(e) => Err(e)
            case Ok(below) => Then(Join(Here(child.block, parent), below), WalkChildren(kids[i + 1..], next))
  {
    assert kids[i..][0] == kids[i] && kids[i..][1..] == kids[i + 1..];
  }

  const InvalidRootMessage: string :=
    "currently, method unfold_block() only accepts page_id or database_id as input."

  /** The walk from a root that must be a page or a database; the root itself is not emitted. */
  function Unfold(root: Node): (r: Result<Walk, Error>)
    ensures root.block.kind != ChildPage && root.block.kind != ChildDatabase ==>
            r == Err(NotionApiError(InvalidRootMessage))
    ensures root.block.kind == ChildPage || root.block.kind == ChildDatabase ==>
            r == WalkChildren(root.kids, root.block.id)
  {
    if root.block.kind != ChildPage && root.block.kind != ChildDatabase then
      Err(NotionApiError(InvalidRootMessage))
    else
      WalkChildren(root.kids, root.block.id)
  }

  /** What the walk of the list holds at an unsynced child, given the walk below that child. */
  lemma VisitStep(children: seq<Node>, i: nat, current: Id, done: Walk)
    requires i < |children| && Skips(children[i].block) == Ok(false)
    ensures var child := children[i];
      var next := Next(child.block, current);
      var sub := if child.block.hasChildren then WalkChildren(child.kids, next) else Ok(Nothing);
      Then(done, WalkChildren(children[i..], current)) ==
        match Then(Join(done, Here(child.block, current)), sub)
        case Err(e) => Err(e)
        case Ok(d) => Then(d, WalkChildren(children[i + 1..], next))
  {
    var child := children[i];
    var here := Here(child.block, current);
    var next := Next(child.block, current);
    var sub := if child.block.hasChildren then WalkChildren(child.kids, next) else Ok(Nothing);
    WalkChildrenAt(children, i, current);
    if sub.Ok? {
      ThenJoin(done, Join(here, sub.value), WalkChildren(children[i + 1..], next));
      JoinAssociative(done, here, sub.value);
    }
  }

  /**
   * The inner recursive function: fetches the children of `node` and walks them, appending to
   * the two lists `acc` holds so far. `parent` is a local of each call, rebound when an
   * unsynced child page is met.
   */
  method RecursiveUnfoldBlock(node: Node, parent: Id, acc: Walk) returns (r: Result<Walk, Error>)
    ensures r == Then(acc, WalkChildren(node.kids, parent))
    decreases node
  {
    var children := node.kids;
    var current := parent;
    var done := acc;
    var i := 0;
    while i < |children|
      invariant 0 <= i <= |children|
      invariant Then(acc, WalkChildren(children, parent)) == Then(done, WalkChildren(children[i..], current))
    {
      var child := children[i];
      WalkChildrenAt(children, i, current);
      if child.block.kind == ChildPage {
        var status := GetSyncStatus(child.block.props);
        if status.Err? {
          return Err(status.error);
        }
        if status.value {
          i := i + 1;
          continue;
        }
      }
      VisitStep(children, i, current, done);
      var here := Here(child.block, current);
      current := Next(child.block, current);
      var below;
      if child.block.hasChildren {
        below := RecursiveUnfoldBlock(child, current, Join(done, here));
      } else {
        assert Join(Join(done, here), Nothing) == Join(done, here);
        below := Ok(Join(done, here));
      }
      if below.Err? {
        return below;
      }
      done := below.value;
      i := i + 1;
    }
    assert Join(done, Nothing) == done;
    return Ok(done);
  }

  /** `unfold_block_and_mark_sync`: check the root's type, then walk below it. */
  method UnfoldBlockAndMarkSync(root: Node) returns (r: Result<Walk, Error>)
    ensures r == Unfold(root)
  {
    if root.block.kind != ChildPage && root.block.kind != ChildDatabase {
      return Err(NotionApiError(InvalidRootMessage));
    }
    r := RecursiveUnfoldBlock(root, root.block.id, Nothing);
    assert Then(Nothing, WalkChildren(root.kids, root.block.id)) == WalkChildren(root.kids, root.block.id) by {
      var w := WalkChildren(root.kids, root.block.id);
      if w.Ok? { assert Join(Nothing, w.value) == w.value; }
    }
  }
}
