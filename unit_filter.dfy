/**
 * The unit filter: a bulleted list item whose text has a run both bold and italic names a
 * vocabulary unit, the text of the first such run.
 */
module UnitFilter {
  import opened Common
  import opened Blocks

  predicate Annotated(run: RichText)
  {
    run.bold && run.italic
  }

  /** The plain text of the first bold-and-italic run, if there is one. */
  function FirstAnnotatedRun(runs: seq<RichText>): (r: Option<string>)
    ensures r.Some? <==> exists i :: 0 <= i < |runs| && Annotated(runs[i])
    ensures r.Some? ==> exists i :: 0 <= i < |runs| && Annotated(runs[i]) && runs[i].plainText == r.value
                                    && forall j :: 0 <= j < i ==> !Annotated(runs[j])
  {
    if runs == [] then None
    else if Annotated(runs[0]) then Some(runs[0].plainText)
    else
      var r := FirstAnnotatedRun(runs[1..]);
      assert forall i :: 1 <= i < |runs| ==> runs[i] == runs[1..][i - 1];
      r
  }

  /** The unit a block yields: none unless it is a bulleted list item. */
  function UnitOf(block: Block): Option<string>
  {
    if block.kind == BulletedListItem then FirstAnnotatedRun(block.richText) else None
  }

  /** The block with its "unit" key set, when the block yields a unit. */
  function Marked(t: Tagged): Option<Tagged>
  {
    match UnitOf(t.block)
    case None => None
    case Some(u) => Some(t.(unit := Some(u)))
  }

  /**
   * `_markdown_criteria_for_units`: scans the runs of a bulleted list item and returns the block
   * with "unit" set to the first bold-and-italic run's text; `False` (here `None`) otherwise.
   */
  method MarkdownCriteriaForUnits(t: Tagged) returns (r: Option<Tagged>)
    ensures r.Some? <==> t.block.kind == BulletedListItem
                         && exists i :: 0 <= i < |t.block.richText| && Annotated(t.block.richText[i])
    ensures r.Some? ==> exists i :: 0 <= i < |t.block.richText|
                          && r.value == t.(unit := Some(t.block.richText[i].plainText))
                          && Annotated(t.block.richText[i])
                          && forall j :: 0 <= j < i ==> !Annotated(t.block.richText[j])
    ensures r == Marked(t)
  {
    if t.block.kind == BulletedListItem {
      var runs := t.block.richText;
      var i := 0;
      while i < |runs|
        invariant 0 <= i <= |runs|
        invariant forall j :: 0 <= j < i ==> !Annotated(runs[j])
      {
        if runs[i].bold && runs[i].italic {
          return Some(t.(unit := Some(runs[i].plainText)));
        }
        i := i + 1;
      }
    }
    return None;
  }

  /** The blocks that yield a unit, marked, in input order. */
  function ExtractedUnits(blocks: seq<Tagged>): (r: seq<Tagged>)
    ensures |r| <= |blocks|
    ensures forall u :: u in r ==> u.unit.Some? && u.block.kind == BulletedListItem
  {
    if blocks == [] then []
    else
      (match Marked(blocks[0]) case None => [] case Some(u) => [u]) + ExtractedUnits(blocks[1..])
  }

  /** Extraction keeps input order: the units of a concatenation are concatenated. */
  lemma {:induction false} ExtractedUnitsAppend(a: seq<Tagged>, b: seq<Tagged>)
    ensures ExtractedUnits(a + b) == ExtractedUnits(a) + ExtractedUnits(b)
  {
    if a == [] {
      assert a + b == b;
    } else {
      assert (a + b)[1..] == a[1..] + b;
      ExtractedUnitsAppend(a[1..], b);
    }
  }

  /** One more block adds its marked form, if any, at the end. */
  lemma ExtractedUnitsSnoc(blocks: seq<Tagged>, i: nat)
    requires i < |blocks|
    ensures ExtractedUnits(blocks[..i + 1])
            == ExtractedUnits(blocks[..i]) + (match Marked(blocks[i]) case None => [] case Some(u) => [u])
  {
    assert blocks[..i + 1] == blocks[..i] + [blocks[i]];
    ExtractedUnitsAppend(blocks[..i], [blocks[i]]);
    assert [blocks[i]][1..] == [];
  }

  /** A block is kept exactly when it yields a unit, and is kept as the marked block. */
  lemma {:induction false} ExtractedUnitsExactly(blocks: seq<Tagged>, u: Tagged)
    ensures u in ExtractedUnits(blocks) <==> exists i :: 0 <= i < |blocks| && Marked(blocks[i]) == Some(u)
  {
    if blocks != [] {
      ExtractedUnitsExactly(blocks[1..], u);
      assert forall i :: 1 <= i < |blocks| ==> blocks[i] == blocks[1..][i - 1];
      if exists i :: 0 <= i < |blocks| && Marked(blocks[i]) == Some(u) {
        var i :| 0 <= i < |blocks| && Marked(blocks[i]) == Some(u);
        if i > 0 { assert Marked(blocks[1..][i - 1]) == Some(u); }
      }
    }
  }

  /** `extract_units`: runs the filter over every block and keeps those it returns. */
  method ExtractUnits(blocks: seq<Tagged>) returns (units: seq<Tagged>)
    ensures units == ExtractedUnits(blocks)
  {
    units := [];
    var i := 0;
    while i < |blocks|
      invariant 0 <= i <= |blocks|
      invariant units == ExtractedUnits(blocks[..i])
    {
      var unitBlock := MarkdownCriteriaForUnits(blocks[i]);
      ExtractedUnitsSnoc(blocks, i);
      if unitBlock.Some? {
        units := units + [unitBlock.value];
      }
      i := i + 1;
    }
    assert blocks[..i] == blocks;
  }
}
