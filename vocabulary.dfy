/**
 * The vocabulary databases and the resolver: a unit goes to the word or the expression
 * database, and either becomes a new page or adds a "Contexts" section to the one page that
 * already has its name.
 */
module Vocabulary {
  import opened Common
  import opened Blocks
  import opened Links

  /** One rich-text item of a content block: text with an optional link. */
  datatype TextRun = TextRun(content: string, link: Option<string>)

  /** The two content block shapes the resolver writes. */
  datatype Content =
    | Heading1(richText: seq<TextRun>, color: string, isToggleable: bool, children: seq<Content>)
    | Paragraph(richText: seq<TextRun>)

  /** A page of a vocabulary database. */
  datatype Page = Page(id: Id, database: Id, title: string, content: seq<Content>)

  /** The writes the resolver and the commit step send, in the order they are sent. */
  datatype Write =
    | CreatePage(database: Id, title: string, children: seq<Content>)
    | AppendBlockChildren(pageId: Id, children: seq<Content>)
    | UpdatePage(pageId: Id, lastExtracted: Property)

  /**
   * The part of the workspace the sync engine writes: the vocabulary pages, the
   * "Last extracted time" values written so far, and every write in order.
   */
  datatype Store = Store(pages: seq<Page>, committed: map<Id, Property>, log: seq<Write>)

  /** The toggle heading "Contexts" holding one paragraph: the unit name linked to its source. */
  function ContextsSection(unitName: string, unitUrl: string): (c: Content)
    ensures c.Heading1? && c.isToggleable && |c.children| == 1 && c.children[0].Paragraph?
    ensures c.children[0].richText == [TextRun(unitName, Some(unitUrl))]
  {
    Heading1([TextRun("Contexts", None)], "default", true, [Paragraph([TextRun(unitName, Some(unitUrl))])])
  }

  /** The result of querying a database for pages whose title equals `title`. */
  function Matching(pages: seq<Page>, database: Id, title: string): (r: seq<Page>)
    ensures forall p :: p in r <==> p in pages && p.database == database && p.title == title
    ensures |r| <= |pages|
  {
    if pages == [] then []
    else (if pages[0].database == database && pages[0].title == title then [pages[0]] else [])
         + Matching(pages[1..], database, title)
  }

  lemma {:induction false} MatchingAppend(a: seq<Page>, b: seq<Page>, database: Id, title: string)
    ensures Matching(a + b, database, title) == Matching(a, database, title) + Matching(b, database, title)
  {
    if a == [] {
      assert a + b == b;
    } else {
      assert (a + b)[1..] == a[1..] + b;
      MatchingAppend(a[1..], b, database, title);
    }
  }

  /**
   * `if_unit_in_database`'s decision on the query result: no page gives `False` (here `None`),
   * exactly one gives its id, more than one is an error.
   */
  function IfUnitInDatabase(unitName: string, hits: seq<Page>): (r: Result<Option<Id>, Error>)
    ensures r == Ok(None) <==> |hits| == 0
    ensures r.Err? <==> |hits| > 1
    ensures r.Err? ==> r.error == NotionApiError("More than one page found for the unit " + unitName + ".")
    ensures |hits| == 1 ==> r == Ok(Some(hits[0].id))
  {
    if |hits| > 0 then
      if |hits| > 1 then Err(NotionApiError("More than one page found for the unit " + unitName + "."))
      else Ok(Some(hits[0].id))
    else Ok(None)
  }

  /** A unit with a space in its name is an expression, any other a word. */
  function TargetDatabase(unitName: string, wordDatabaseId: Id, expressionDatabaseId: Id): Id
  {
    if ' ' in unitName then expressionDatabaseId else wordDatabaseId
  }

  /**
   * The one write `append_or_update_unit_in_database` sends for a unit block, or the error it
   * raises first. A found id that is empty counts as not found, as `if not unit_page_id` does.
   */
  function PlanWrite(pages: seq<Page>, unitBlock: Tagged, wordDatabaseId: Id, expressionDatabaseId: Id)
    : (r: Result<Write, Error>)
    ensures unitBlock.unit.None? ==> r == Err(KeyError("unit"))
    ensures r.Ok? ==> !r.value.UpdatePage?
    ensures r.Ok? && r.value.CreatePage? ==> r.value.title == unitBlock.unit.value
    ensures r.Ok? ==> (r.value.CreatePage? && r.value.database == expressionDatabaseId)
                      || (r.value.CreatePage? && r.value.database == wordDatabaseId)
                      || r.value.AppendBlockChildren?
  {
    match unitBlock.unit
    case None => Err(KeyError("unit"))
    case Some(unitName) =>
      var database := TargetDatabase(unitName, wordDatabaseId, expressionDatabaseId);
      var unitUrl := UrlForExtractedUnit(unitBlock).value;
      match IfUnitInDatabase(unitName, Matching(pages, database, unitName))
      case Err(e) => Err(e)
      case Ok(found) =>
        if found.None? || found.value == "" then
          Ok(CreatePage(database, unitName, [ContextsSection(unitName, unitUrl)]))
        else
          Ok(AppendBlockChildren(found.value, [ContextsSection(unitName, unitUrl)]))
  }

  /** The write `PlanWrite` comes to when at most one page has the title: a create or an append. */
  function UnitWrite(pages: seq<Page>, database: Id, name: string, children: seq<Content>): Write
  {
    var hits := Matching(pages, database, name);
    if hits == [] then CreatePage(database, name, children) else AppendBlockChildren(hits[0].id, children)
  }

  /** The longest id length among the pages. */
  function MaxIdLength(pages: seq<Page>): (n: nat)
    ensures forall p :: p in pages ==> |p.id| <= n
  {
    if pages == [] then 0
    else
      var rest := MaxIdLength(pages[1..]);
      if |pages[0].id| > rest then |pages[0].id| else rest
  }

  /** The id the workspace gives a new page: one that no existing page has. */
  function FreshId(pages: seq<Page>): (id: Id)
    ensures id != [] && forall p :: p in pages ==> p.id != id
  {
    seq(MaxIdLength(pages) + 1, _ => 'n')
  }

  /** The pages after appending `children` to the page with id `pageId`. */
  function AppendTo(pages: seq<Page>, pageId: Id, children: seq<Content>): (r: seq<Page>)
    ensures |r| == |pages|
    ensures forall i :: 0 <= i < |pages| ==>
              r[i] == if pages[i].id == pageId then pages[i].(content := pages[i].content + children) else pages[i]
  {
    if pages == [] then []
    else [if pages[0].id == pageId then pages[0].(content := pages[0].content + children) else pages[0]]
         + AppendTo(pages[1..], pageId, children)
  }

  /** The store after one write has been applied by the workspace. */
  function Apply(s: Store, w: Write): (r: Store)
    ensures r.log == s.log + [w]
    ensures !w.UpdatePage? ==> r.committed == s.committed
    ensures !w.CreatePage? ==> |r.pages| == |s.pages|
  {
    match w
    case CreatePage(database, title, children) =>
      s.(pages := s.pages + [Page(FreshId(s.pages), database, title, children)], log := s.log + [w])
    case AppendBlockChildren(pageId, children) =>
      s.(pages := AppendTo(s.pages, pageId, children), log := s.log + [w])
    case UpdatePage(pageId, lastExtracted) =>
      s.(committed := s.committed[pageId := lastExtracted], log := s.log + [w])
  }

  /** `append_or_update_unit_in_database` on the store: one write, or an error and no write. */
  function ResolveUnit(s: Store, unitBlock: Tagged, wordDatabaseId: Id, expressionDatabaseId: Id)
    : (Store, Result<(), Error>)
  {
    match PlanWrite(s.pages, unitBlock, wordDatabaseId, expressionDatabaseId)
    case Err(e) => (s, Err(e))
    case Ok(w) => (Apply(s, w), Ok(()))
  }

  /** Page ids are non-empty and no two pages share one. */
  ghost predicate IdsValid(pages: seq<Page>)
  {
    (forall p :: p in pages ==> p.id != [])
    && forall i, j :: 0 <= i < j < |pages| ==> pages[i].id != pages[j].id
  }

  /** One more page adds itself at the end when it matches. */
  lemma MatchingSnoc(pages: seq<Page>, i: nat, database: Id, title: string)
    requires i < |pages|
    ensures Matching(pages[..i + 1], database, title) == Matching(pages[..i], database, title)
            + (if pages[i].database == database && pages[i].title == title then [pages[i]] else [])
  {
    assert pages[..i + 1] == pages[..i] + [pages[i]];
    MatchingAppend(pages[..i], [pages[i]], database, title);
    assert [pages[i]][1..] == [];
  }

  /** At most one page per title within a database. */
  ghost predicate AtMostOnePerTitle(pages: seq<Page>)
  {
    forall i, j :: 0 <= i < j < |pages| ==>
      pages[i].database != pages[j].database || pages[i].title != pages[j].title
  }

  ghost predicate StoreValid(s: Store)
  {
    IdsValid(s.pages) && AtMostOnePerTitle(s.pages)
  }

  /** With at most one page per title, a query finds at most one page. */
  lemma {:induction false} AtMostOneMatch(pages: seq<Page>, database: Id, title: string)
    requires AtMostOnePerTitle(pages)
    ensures |Matching(pages, database, title)| <= 1
  {
    if pages != [] {
      assert AtMostOnePerTitle(pages[1..]) by {
        forall i, j | 0 <= i < j < |pages[1..]|
          ensures pages[1..][i].database != pages[1..][j].database || pages[1..][i].title != pages[1..][j].title
        {
          assert pages[1..][i] == pages[i + 1] && pages[1..][j] == pages[j + 1];
        }
      }
      AtMostOneMatch(pages[1..], database, title);
      if pages[0].database == database && pages[0].title == title {
        forall i | 0 <= i < |pages[1..]|
          ensures pages[1..][i].database != database || pages[1..][i].title != title
        {
          assert pages[1..][i] == pages[i + 1];
        }
        NoneMatching(pages[1..], database, title);
      }
    }
  }

  lemma {:induction false} NoneMatching(pages: seq<Page>, database: Id, title: string)
    requires forall i :: 0 <= i < |pages| ==> pages[i].database != database || pages[i].title != title
    ensures Matching(pages, database, title) == []
  {
    if pages != [] {
      assert forall i :: 0 <= i < |pages[1..]| ==> pages[1..][i] == pages[i + 1];
      NoneMatching(pages[1..], database, title);
    }
  }

  lemma {:induction false} MatchingAppendTo(pages: seq<Page>, pageId: Id, children: seq<Content>, database: Id, title: string)
    ensures Matching(AppendTo(pages, pageId, children), database, title)
            == AppendTo(Matching(pages, database, title), pageId, children)
  {
    if pages != [] {
      var r := AppendTo(pages, pageId, children);
      assert r[1..] == AppendTo(pages[1..], pageId, children);
      MatchingAppendTo(pages[1..], pageId, children, database, title);
    }
  }

  /** Creating a page for a title no page of the database has keeps the store valid. */
  lemma CreateEffect(s: Store, database: Id, title: string, children: seq<Content>)
    requires StoreValid(s) && Matching(s.pages, database, title) == []
    ensures var s' := Apply(s, CreatePage(database, title, children));
      && StoreValid(s')
      && Matching(s'.pages, database, title) == [Page(FreshId(s.pages), database, title, children)]
      && |s'.pages| == |s.pages| + 1 && s'.pages[..|s.pages|] == s.pages
  {
    var page := Page(FreshId(s.pages), database, title, children);
    var pages := s.pages + [page];
    assert Apply(s, CreatePage(database, title, children)).pages == pages;
    SnocKeepsValid(s.pages, page);
    MatchingAppend(s.pages, [page], database, title);
    assert Matching([page], database, title) == [page];
    assert pages[..|s.pages|] == s.pages;
  }

  /** A page with a fresh id and a title no page has can be added at the end. */
  lemma SnocKeepsValid(pages: seq<Page>, page: Page)
    requires IdsValid(pages) && AtMostOnePerTitle(pages)
    requires page.id != [] && forall p :: p in pages ==> p.id != page.id
    requires Matching(pages, page.database, page.title) == []
    ensures IdsValid(pages + [page]) && AtMostOnePerTitle(pages + [page])
  {
    var r := pages + [page];
    forall i, j | 0 <= i < j < |r| ensures r[i].id != r[j].id {
      if j == |pages| { assert r[i] in pages; }
    }
    forall i, j | 0 <= i < j < |r| ensures r[i].database != r[j].database || r[i].title != r[j].title {
      if j == |pages| { assert r[i] in pages; }
    }
  }


  /** Appending children keeps every page's id, database and title, so it keeps the store valid. */
  lemma AppendToKeepsValid(s: Store, pageId: Id, children: seq<Content>)
    requires StoreValid(s)
    ensures StoreValid(s.(pages := AppendTo(s.pages, pageId, children)))
  {
    var r := AppendTo(s.pages, pageId, children);
    assert forall i :: 0 <= i < |r| ==>
      r[i].id == s.pages[i].id && r[i].database == s.pages[i].database && r[i].title == s.pages[i].title;
    forall p | p in r ensures p.id != [] {
      var i :| 0 <= i < |r| && r[i] == p;
      assert s.pages[i] in s.pages;
    }
  }

  /** Appending to the one page of a title keeps the store valid and changes only that page. */
  lemma AppendEffect(s: Store, found: Page, children: seq<Content>)
    requires StoreValid(s) && Matching(s.pages, found.database, found.title) == [found]
    ensures var s' := Apply(s, AppendBlockChildren(found.id, children));
      && StoreValid(s')
      && Matching(s'.pages, found.database, found.title) == [found.(content := found.content + children)]
      && forall i :: 0 <= i < |s.pages| && s.pages[i] != found ==> s'.pages[i] == s.pages[i]
  {
    var s' := Apply(s, AppendBlockChildren(found.id, children));
    AppendToKeepsValid(s, found.id, children);
    assert s' == s.(pages := AppendTo(s.pages, found.id, children), log := s.log + [AppendBlockChildren(found.id, children)]);
    assert found in s.pages;
    MatchingAppendTo(s.pages, found.id, children, found.database, found.title);
    assert AppendTo([found], found.id, children) == [found.(content := found.content + children)];
    var k :| 0 <= k < |s.pages| && s.pages[k] == found;
    forall i | 0 <= i < |s.pages| && s.pages[i] != found ensures s'.pages[i] == s.pages[i] {
      assert i != k;
    }
  }

  /** What `PlanWrite` sends when the query finds at most one page and ids are non-empty. */
  lemma PlanWriteShape(pages: seq<Page>, unitBlock: Tagged, wordDatabaseId: Id, expressionDatabaseId: Id)
    requires IdsValid(pages) && unitBlock.unit.Some?
    requires |Matching(pages, TargetDatabase(unitBlock.unit.value, wordDatabaseId, expressionDatabaseId), unitBlock.unit.value)| <= 1
    ensures var name := unitBlock.unit.value;
      var database := TargetDatabase(name, wordDatabaseId, expressionDatabaseId);
      var section := ContextsSection(name, LinkTo(CleanId(unitBlock.parentPageId), CleanId(unitBlock.block.id)));
      PlanWrite(pages, unitBlock, wordDatabaseId, expressionDatabaseId) == Ok(UnitWrite(pages, database, name, [section]))
  {
    var name := unitBlock.unit.value;
    var hits := Matching(pages, TargetDatabase(name, wordDatabaseId, expressionDatabaseId), name);
    if hits != [] { assert hits[0] in pages; }
  }

  /**
   * Resolving a unit against a valid store keeps it valid, sends exactly one write (a create or
   * an append, never a commit) and leaves the unit's database with exactly one page of its name,
   * whose content now ends with the unit's "Contexts" section. Only an ambiguous name fails, and
   * a valid store has none.
   */
  lemma ResolveUnitEffect(s: Store, unitBlock: Tagged, wordDatabaseId: Id, expressionDatabaseId: Id)
    requires StoreValid(s) && unitBlock.unit.Some?
    ensures var (s', r) := ResolveUnit(s, unitBlock, wordDatabaseId, expressionDatabaseId);
      var name := unitBlock.unit.value;
      var database := if ' ' in name then expressionDatabaseId else wordDatabaseId;
      var section := ContextsSection(name, LinkTo(CleanId(unitBlock.parentPageId), CleanId(unitBlock.block.id)));
      var before := Matching(s.pages, database, name);
      && r.Ok?
      && StoreValid(s')
      && |s'.log| == |s.log| + 1 && s'.log[..|s.log|] == s.log && !s'.log[|s.log|].UpdatePage?
      && s'.committed == s.committed
      && |Matching(s'.pages, database, name)| == 1
      && Matching(s'.pages, database, name)[0].content
         == (if before == [] then [] else before[0].content) + [section]
      && |s.pages| <= |s'.pages|
      && forall i :: 0 <= i < |s.pages| && !(s.pages[i].database == database && s.pages[i].title == name) ==>
           s'.pages[i] == s.pages[i]
  {
    var name := unitBlock.unit.value;
    var database := TargetDatabase(name, wordDatabaseId, expressionDatabaseId);
    AtMostOneMatch(s.pages, database, name);
    PlanWriteShape(s.pages, unitBlock, wordDatabaseId, expressionDatabaseId);
    var section := ContextsSection(name, LinkTo(CleanId(unitBlock.parentPageId), CleanId(unitBlock.block.id)));
    WriteEffect(s, database, name, [section]);
    WriteKeepsOthers(s, database, name, [section]);
  }

  /**
   * On a valid store, `UnitWrite` keeps the store valid, adds exactly one create or append to
   * the log, commits nothing, and leaves exactly one page of the title, whose content is the
   * old content (none for a new page) followed by `children`.
   */
  lemma WriteEffect(s: Store, database: Id, name: string, children: seq<Content>)
    requires StoreValid(s)
    ensures var before := Matching(s.pages, database, name);
      var s' := Apply(s, UnitWrite(s.pages, database, name, children));
      && StoreValid(s')
      && |s'.log| == |s.log| + 1 && s'.log[..|s.log|] == s.log && !s'.log[|s.log|].UpdatePage?
      && s'.committed == s.committed
      && |Matching(s'.pages, database, name)| == 1
      && Matching(s'.pages, database, name)[0].content == (if before == [] then [] else before[0].content) + children
  {
    var hits := Matching(s.pages, database, name);
    AtMostOneMatch(s.pages, database, name);
    var s' := Apply(s, UnitWrite(s.pages, database, name, children));
    assert s'.log[..|s.log|] == s.log;
    if hits == [] {
      CreateEffect(s, database, name, children);
      assert [] + children == children;
    } else {
      assert hits == [hits[0]];
      AppendEffect(s, hits[0], children);
    }
  }

  /** `UnitWrite` changes no page of another title or database: it appends a page or edits one in place. */
  lemma WriteKeepsOthers(s: Store, database: Id, name: string, children: seq<Content>)
    requires StoreValid(s)
    ensures var s' := Apply(s, UnitWrite(s.pages, database, name, children));
      && |s.pages| <= |s'.pages|
      && forall i :: 0 <= i < |s.pages| && !(s.pages[i].database == database && s.pages[i].title == name) ==>
           s'.pages[i] == s.pages[i]
  {
    var hits := Matching(s.pages, database, name);
    var s' := Apply(s, UnitWrite(s.pages, database, name, children));
    if hits == [] {
      assert s'.pages == s.pages + [Page(FreshId(s.pages), database, name, children)];
      forall i | 0 <= i < |s.pages| ensures s'.pages[i] == s.pages[i] {
      }
    } else {
      var found := hits[0];
      assert found in s.pages && found.database == database && found.title == name;
      var k :| 0 <= k < |s.pages| && s.pages[k] == found;
      assert s'.pages == AppendTo(s.pages, found.id, children);
      forall i | 0 <= i < |s.pages| && !(s.pages[i].database == database && s.pages[i].title == name)
        ensures s'.pages[i] == s.pages[i]
      {
        assert i != k;
      }
    }
  }

}
