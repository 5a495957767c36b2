/** Id normalisation and the deep link from a vocabulary entry back to the source block. */
module Links {
  import opened Common
  import opened Blocks

  const NotionBase: string := "https://www.notion.so/"
  const ViewParam: string := "?pvs=4#"

  /** `id.replace("-", "")`: the id with every '-' removed. */
  function CleanId(id: Id): (r: Id)
    ensures '-' !in r
    ensures forall c :: c in r <==> c in id && c != '-'
    ensures |r| <= |id|
  {
    if id == [] then []
    else if id[0] == '-' then CleanId(id[1..])
    else [id[0]] + CleanId(id[1..])
  }

  /** Cleaning distributes over concatenation. */
  lemma {:induction false} CleanIdAppend(a: Id, b: Id)
    ensures CleanId(a + b) == CleanId(a) + CleanId(b)
  {
    if a != [] {
      assert (a + b)[1..] == a[1..] + b;
      CleanIdAppend(a[1..], b);
    } else {
      assert a + b == b;
    }
  }

  /** An id without '-' is left as it is, and only such an id is. */
  lemma {:induction false} CleanIdFixpoint(id: Id)
    ensures CleanId(id) == id <==> '-' !in id
  {
    if id != [] && '-' !in id {
      CleanIdFixpoint(id[1..]);
    }
  }

  /** Cleaning twice is cleaning once. */
  lemma {:induction false} CleanIdIdempotent(id: Id)
    ensures CleanId(CleanId(id)) == CleanId(id)
  {
    CleanIdFixpoint(CleanId(id));
  }

  /**
   * The link format: the page to open, then the fixed view parameter, then after '#' the
   * block to focus.
   */
  function LinkTo(pageId: Id, blockId: Id): (url: string)
    ensures |url| == |NotionBase| + |pageId| + |ViewParam| + |blockId|
    ensures url[..|NotionBase|] == NotionBase
    ensures url[|NotionBase|..|NotionBase| + |pageId|] == pageId
    ensures url[|NotionBase| + |pageId|..|NotionBase| + |pageId| + |ViewParam|] == ViewParam
    ensures url[|NotionBase| + |pageId| + |ViewParam|..] == blockId
  {
    NotionBase + pageId + ViewParam + blockId
  }

  /** The index of the first `c` in `s`, or `|s|` when there is none. */
  function IndexOf(s: string, c: char): (k: nat)
    ensures k <= |s|
    ensures k < |s| ==> s[k] == c
    ensures forall i :: 0 <= i < k ==> s[i] != c
  {
    if s == [] then 0
    else if s[0] == c then 0
    else 1 + IndexOf(s[1..], c)
  }

  /** The first `c` of `a + b` is the head of `b` when `a` has none. */
  lemma IndexOfAfter(a: string, b: string, c: char)
    requires c !in a && b != [] && b[0] == c
    ensures IndexOf(a + b, c) == |a|
  {
    assert (a + b)[|a|] == c;
    assert forall i :: 0 <= i < |a| ==> (a + b)[i] == a[i];
  }

  /** Reads a link back into its page id and block id: the partner of `LinkTo`. */
  function ParseLink(url: string): (r: Option<(Id, Id)>)
    ensures r.Some? ==> LinkTo(r.value.0, r.value.1) == url && '?' !in r.value.0
  {
    if |url| < |NotionBase| || url[..|NotionBase|] != NotionBase then None
    else
      var rest := url[|NotionBase|..];
      var k := IndexOf(rest, '?');
      if |rest| - k < |ViewParam| || rest[k..k + |ViewParam|] != ViewParam then None
      else
        var page, block := rest[..k], rest[k + |ViewParam|..];
        assert url == NotionBase + page + ViewParam + block by {
          assert rest == page + ViewParam + block;
        }
        assert '?' !in page by {
          assert forall i :: 0 <= i < |page| ==> page[i] == rest[i];
        }
        Some((page, block))
  }

  /** Every link whose page id has no '?' parses back to its two ids. */
  lemma {:induction false} LinkRoundTrip(pageId: Id, blockId: Id)
    requires '?' !in pageId
    ensures ParseLink(LinkTo(pageId, blockId)) == Some((pageId, blockId))
  {
    var url := LinkTo(pageId, blockId);
    var rest := url[|NotionBase|..];
    assert rest == pageId + (ViewParam + blockId);
    IndexOfAfter(pageId, ViewParam + blockId, '?');
  }

  /**
   * The link to a unit block: its page and block ids cleaned of '-' and put into the link
   * format; a block the unit filter never marked has no "unit" key and raises `KeyError`.
   */
  function UrlForExtractedUnit(unitBlock: Tagged): (r: Result<string, Error>)
    ensures r.Err? <==> unitBlock.unit.None?
    ensures r.Err? ==> r.error == KeyError("unit_block does not have a 'unit' key.")
    ensures r.Ok? ==> r.value == LinkTo(CleanId(unitBlock.parentPageId), CleanId(unitBlock.block.id))
  {
    if unitBlock.unit.None? then Err(KeyError("unit_block does not have a 'unit' key."))
    else
      var pageId := CleanId(unitBlock.parentPageId);
      var blockId := CleanId(unitBlock.block.id);
      Ok(NotionBase + pageId + ViewParam + blockId)
  }

  /**
   * A unit link parses back to the cleaned ids, so neither recovered id contains '-'.
   */
  lemma UnitUrlRoundTrip(unitBlock: Tagged)
    requires unitBlock.unit.Some? && '?' !in unitBlock.parentPageId
    ensures var r := UrlForExtractedUnit(unitBlock);
            r.Ok? && ParseLink(r.value) == Some((CleanId(unitBlock.parentPageId), CleanId(unitBlock.block.id)))
            && '-' !in ParseLink(r.value).value.0 && '-' !in ParseLink(r.value).value.1
  {
    LinkRoundTrip(CleanId(unitBlock.parentPageId), CleanId(unitBlock.block.id));
  }
}
