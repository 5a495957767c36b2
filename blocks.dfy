/**
 * The workspace objects the sync engine reads: blocks, the page properties that carry the
 * sync timestamps, and a snapshot of a block tree.
 */
module Blocks {
  import opened Common

  /** A workspace object id, as the API returns it (hyphenated or not). */
  type Id = string

  /** Block type names the code compares against. */
  const ChildPage: string := "child_page"
  const ChildDatabase: string := "child_database"
  const BulletedListItem: string := "bulleted_list_item"

  /**
   * A parsed timestamp at the precision the source keeps: minutes since the epoch in UTC,
   * then the seconds and microseconds within that minute.
   */
  datatype Instant = Instant(minute: int, second: nat, micro: nat)

  /** A timestamp field as read from a page: empty (None or "") or a timestamp. */
  datatype RawTime = Blank | At(instant: Instant)

  /** The `date` object of a date property. */
  datatype DateValue = DateValue(start: RawTime)

  /** The page properties the sync engine looks at. */
  datatype Property =
    | DateProperty(date: Option<DateValue>)    // "date": null until first set
    | LastEditedTimeProperty(time: RawTime)    // "last_edited_time"
    | OtherProperty

  /** One rich-text run of a block with its annotations. */
  datatype RichText = RichText(plainText: string, bold: bool, italic: bool)

  /**
   * A block as the API returns it. `richText` is the `rich_text` list under the block's
   * type key; `props` are the properties of the page this block is (empty for other blocks).
   */
  datatype Block = Block(
    id: Id,
    kind: string,
    hasChildren: bool,
    richText: seq<RichText>,
    props: map<string, Property>)

  /** A snapshot of the block tree: `kids` is what fetching the block's children returns. */
  datatype Node = Node(block: Block, kids: seq<Node>)

  /**
   * A block dict after the walk has written `parent_page_id` into it and, for unit blocks,
   * after the unit filter has written `unit` into it.
   */
  datatype Tagged = Tagged(block: Block, parentPageId: Id, unit: Option<string>)

  function Untag(s: seq<Tagged>): (r: seq<Block>)
    ensures |r| == |s|
    ensures forall i :: 0 <= i < |s| ==> r[i] == s[i].block
  {
    if s == [] then [] else [s[0].block] + Untag(s[1..])
  }

  lemma UntagAppend(a: seq<Tagged>, b: seq<Tagged>)
    ensures Untag(a + b) == Untag(a) + Untag(b)
  {
    assert forall i :: 0 <= i < |a + b| ==> Untag(a + b)[i] == (Untag(a) + Untag(b))[i];
  }

  /**
   * The blocks under a list of siblings in pre-order: each block, then (when the block says it
   * has children) the blocks under its children, then the blocks of the later siblings.
   */
  function Preorder(kids: seq<Node>): seq<Block>
    decreases kids
  {
    if kids == [] then []
    else [kids[0].block] + (if kids[0].block.hasChildren then Preorder(kids[0].kids) else []) + Preorder(kids[1..])
  }
}
