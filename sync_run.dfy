/**
 * One refresh of the vocabulary databases: read the contexts, walk each of them, extract the
 * units, resolve every unit to one write, and only then commit the extraction time of every
 * page the walks found unsynced.
 */
module SyncRun {
  import opened Common
  import opened Blocks
  import opened SyncStatus
  import opened Links
  import opened TreeWalk
  import opened TreeWalkFacts
  import opened UnitFilter
  import opened Vocabulary

  /** An item the query of the main database returns: its object kind and the tree below it. */
  datatype ContextItem = ContextItem(objectKind: string, tree: Node)

  const PageObject: string := "page"
  const NonPageContextMessage: string := "'Contexts' type in the database contains non-page items."

  /** `get_contexts_from_database`: the query result, provided every item is a page. */
  function GetContexts(items: seq<ContextItem>): (r: Result<seq<ContextItem>, Error>)
    ensures r.Ok? <==> forall i :: 0 <= i < |items| ==> items[i].objectKind == PageObject
    ensures r.Ok? ==> r.value == items
    ensures r.Err? ==> r.error == NotionApiError(NonPageContextMessage)
  {
    if forall i :: 0 <= i < |items| ==> items[i].objectKind == PageObject then Ok(items)
    else Err(NotionApiError(NonPageContextMessage))
  }

  method GetContextsFromDatabase(items: seq<ContextItem>) returns (r: Result<seq<ContextItem>, Error>)
    ensures r == GetContexts(items)
  {
    var i := 0;
    while i < |items|
      invariant 0 <= i <= |items|
      invariant forall j :: 0 <= j < i ==> items[j].objectKind == PageObject
    {
      if items[i].objectKind != PageObject {
        return Err(NotionApiError(NonPageContextMessage));
      }
      i := i + 1;
    }
    return Ok(items);
  }

  /** The walks of the contexts, one after the other; the first failing walk ends the run. */
  function Gather(contexts: seq<ContextItem>): Result<Walk, Error>
  {
    if contexts == [] then Ok(Nothing)
    else
      match Unfold(contexts[0].tree)
      case Err(e) => Err(e)
      case Ok(w) => Then(w, Gather(contexts[1..]))
  }

  /** A completed gathering collects exactly its emitted pages, each found unsynced. */
  lemma {:induction false} GatherCollectsEmittedPages(contexts: seq<ContextItem>)
    requires Gather(contexts).Ok?
    ensures PagesConsistent(Gather(contexts).value)
  {
    if contexts != [] {
      var root := contexts[0].tree;
      assert root.block.kind == ChildPage || root.block.kind == ChildDatabase;
      WalkCollectsEmittedPages(root.kids, root.block.id);
      GatherCollectsEmittedPages(contexts[1..]);
      JoinConsistent(Unfold(root).value, Gather(contexts[1..]).value);
    }
  }

  /** The units resolved in order; the first error stops the loop, the writes before it stay. */
  function ResolveAll(s: Store, units: seq<Tagged>, wordDatabaseId: Id, expressionDatabaseId: Id)
    : (Store, Result<(), Error>)
    decreases units
  {
    if units == [] then (s, Ok(()))
    else
      var (s1, r1) := ResolveUnit(s, units[0], wordDatabaseId, expressionDatabaseId);
      if r1.Err? then (s1, r1) else ResolveAll(s1, units[1..], wordDatabaseId, expressionDatabaseId)
  }

  /** The commits of `update_extraction_time`, the k-th one stamped with the k-th clock reading. */
  function Commits(pages: seq<Tagged>, clock: nat -> Instant, from: nat): (ws: seq<Write>)
    ensures |ws| == |pages|
    ensures forall k :: 0 <= k < |pages| ==>
              ws[k] == UpdatePage(pages[k].block.id, ExtractionStamp(clock(from + k)))
  {
    if pages == [] then []
    else [UpdatePage(pages[0].block.id, ExtractionStamp(clock(from)))] + Commits(pages[1..], clock, from + 1)
  }

  /** The store after the commit loop. */
  function CommitAll(s: Store, pages: seq<Tagged>, clock: nat -> Instant, from: nat): Store
    decreases pages
  {
    if pages == [] then s
    else CommitAll(Apply(s, UpdatePage(pages[0].block.id, ExtractionStamp(clock(from)))), pages[1..], clock, from + 1)
  }

  /**
   * `refresh_units_database_with_contexts` on the store, with the UTC clock as a parameter whose
   * k-th reading stamps the k-th commit.
   */
  function Run(s: Store, items: seq<ContextItem>, wordDatabaseId: Id, expressionDatabaseId: Id,
               clock: nat -> Instant): (Store, Result<(), Error>)
  {
    match GetContexts(items)
    case Err(e) => (s, Err(e))
    case Ok(contexts) =>
      match Gather(contexts)
      case Err(e) => (s, Err(e))
      case Ok(w) =>
        var (s1, r1) := ResolveAll(s, ExtractedUnits(w.flat), wordDatabaseId, expressionDatabaseId);
        if r1.Err? then (s1, r1) else (CommitAll(s1, w.pages, clock, 0), Ok(()))
  }

  /** `after` is `before` followed only by creates and appends: no commit was sent in between. */
  predicate GrowsWithoutCommits(before: seq<Write>, after: seq<Write>)
  {
    && |before| <= |after|
    && after[..|before|] == before
    && forall i :: |before| <= i < |after| ==> !after[i].UpdatePage?
  }

  lemma GrowsWithoutCommitsTransitive(a: seq<Write>, b: seq<Write>, c: seq<Write>)
    requires GrowsWithoutCommits(a, b) && GrowsWithoutCommits(b, c)
    ensures GrowsWithoutCommits(a, c)
  {
    assert c[..|a|] == c[..|b|][..|a|];
  }

  /** One resolve sends at most one write, never a commit. */
  lemma ResolveUnitNeverCommits(s: Store, unitBlock: Tagged, wordDatabaseId: Id, expressionDatabaseId: Id)
    ensures var (s', r) := ResolveUnit(s, unitBlock, wordDatabaseId, expressionDatabaseId);
      s'.committed == s.committed && GrowsWithoutCommits(s.log, s'.log) && |s'.log| <= |s.log| + 1
  {
    var plan := PlanWrite(s.pages, unitBlock, wordDatabaseId, expressionDatabaseId);
    if plan.Ok? {
      assert (s.log + [plan.value])[..|s.log|] == s.log;
    }
  }

  /** Resolving never commits: it only appends creates and appends to the log. */
  lemma {:induction false} ResolveAllNeverCommits(s: Store, units: seq<Tagged>, wordDatabaseId: Id, expressionDatabaseId: Id)
    ensures var (s', r) := ResolveAll(s, units, wordDatabaseId, expressionDatabaseId);
      s'.committed == s.committed && GrowsWithoutCommits(s.log, s'.log) && |s'.log| <= |s.log| + |units|
    decreases units
  {
    if units == [] {
      assert s.log[..|s.log|] == s.log;
    } else {
      ResolveUnitNeverCommits(s, units[0], wordDatabaseId, expressionDatabaseId);
      var (s1, r1) := ResolveUnit(s, units[0], wordDatabaseId, expressionDatabaseId);
      if r1.Ok? {
        ResolveAllNeverCommits(s1, units[1..], wordDatabaseId, expressionDatabaseId);
        var s' := ResolveAll(s1, units[1..], wordDatabaseId, expressionDatabaseId).0;
        GrowsWithoutCommitsTransitive(s.log, s1.log, s'.log);
      }
    }
  }

  /**
   * On a valid store every unit resolves: exactly one write per unit, and the store stays valid.
   */
  lemma {:induction false} ResolveAllOnValidStore(s: Store, units: seq<Tagged>, wordDatabaseId: Id, expressionDatabaseId: Id)
    requires StoreValid(s)
    requires forall k :: 0 <= k < |units| ==> units[k].unit.Some?
    ensures var (s', r) := ResolveAll(s, units, wordDatabaseId, expressionDatabaseId);
      r.Ok? && StoreValid(s') && |s'.log| == |s.log| + |units|
    decreases units
  {
    if units != [] {
      var (s1, r1) := ResolveUnit(s, units[0], wordDatabaseId, expressionDatabaseId);
      assert r1.Ok? && StoreValid(s1) && |s1.log| == |s.log| + 1 by {
        ResolveUnitEffect(s, units[0], wordDatabaseId, expressionDatabaseId);
      }
      assert ResolveAll(s, units, wordDatabaseId, expressionDatabaseId) == ResolveAll(s1, units[1..], wordDatabaseId, expressionDatabaseId);
      assert forall k :: 0 <= k < |units[1..]| ==> units[1..][k] == units[k + 1];
      ResolveAllOnValidStore(s1, units[1..], wordDatabaseId, expressionDatabaseId);
    }
  }

  /** The commit loop leaves the vocabulary pages alone and appends one commit per page, in order. */
  lemma {:induction false} CommitAllLog(s: Store, pages: seq<Tagged>, clock: nat -> Instant, from: nat)
    ensures var s' := CommitAll(s, pages, clock, from);
      s'.pages == s.pages && s'.log == s.log + Commits(pages, clock, from)
    decreases pages
  {
    if pages != [] {
      var c := UpdatePage(pages[0].block.id, ExtractionStamp(clock(from)));
      var s1 := Apply(s, c);
      assert s1 == s.(committed := s.committed[pages[0].block.id := ExtractionStamp(clock(from))], log := s.log + [c]);
      assert CommitAll(s, pages, clock, from) == CommitAll(s1, pages[1..], clock, from + 1);
      CommitAllLog(s1, pages[1..], clock, from + 1);
      var rest := Commits(pages[1..], clock, from + 1);
      assert Commits(pages, clock, from) == [c] + rest;
      assert (s.log + [c]) + rest == s.log + ([c] + rest);
    }
  }

  /** After the commit loop every collected page has a stamp, and no other page's stamp changed. */
  lemma {:induction false} CommitAllStamps(s: Store, pages: seq<Tagged>, clock: nat -> Instant, from: nat)
    ensures var s' := CommitAll(s, pages, clock, from);
      && (forall k :: 0 <= k < |pages| ==> pages[k].block.id in s'.committed)
      && forall id :: id in s.committed && (forall k :: 0 <= k < |pages| ==> pages[k].block.id != id) ==>
           id in s'.committed && s'.committed[id] == s.committed[id]
    decreases pages
  {
    if pages != [] {
      var s1 := Apply(s, UpdatePage(pages[0].block.id, ExtractionStamp(clock(from))));
      CommitAllStamps(s1, pages[1..], clock, from + 1);
      assert forall k :: 0 <= k < |pages[1..]| ==> pages[1..][k] == pages[k + 1];
      var s' := CommitAll(s1, pages[1..], clock, from + 1);
      assert pages[0].block.id in s1.committed;
      CommitAllKeepsKey(s1, pages[1..], clock, from + 1, pages[0].block.id);
    }
  }

  /** A key with a stamp keeps one through the commit loop. */
  lemma {:induction false} CommitAllKeepsKey(s: Store, pages: seq<Tagged>, clock: nat -> Instant, from: nat, id: Id)
    requires id in s.committed
    ensures id in CommitAll(s, pages, clock, from).committed
    decreases pages
  {
    if pages != [] {
      CommitAllKeepsKey(Apply(s, UpdatePage(pages[0].block.id, ExtractionStamp(clock(from)))), pages[1..], clock, from + 1, id);
    }
  }

  /** A run that fails commits nothing: no extraction time is written. */
  lemma RunFailureCommitsNothing(s: Store, items: seq<ContextItem>, wordDatabaseId: Id, expressionDatabaseId: Id,
                                 clock: nat -> Instant)
    ensures var (s', r) := Run(s, items, wordDatabaseId, expressionDatabaseId, clock);
      r.Err? ==> s'.committed == s.committed && GrowsWithoutCommits(s.log, s'.log)
  {
    var contexts := GetContexts(items);
    if contexts.Ok? && Gather(contexts.value).Ok? {
      ResolveAllNeverCommits(s, ExtractedUnits(Gather(contexts.value).value.flat), wordDatabaseId, expressionDatabaseId);
    } else {
      assert s.log[..|s.log|] == s.log;
    }
  }

  /** Every page the walks collect was read as unsynced. */
  lemma GatheredPagesUnsynced(contexts: seq<ContextItem>, w: Walk)
    requires Gather(contexts) == Ok(w)
    ensures forall k :: 0 <= k < |w.pages| ==> IsPage(w.pages[k]) && GetSyncStatus(w.pages[k].block.props) == Ok(false)
  {
    GatherCollectsEmittedPages(contexts);
    forall k | 0 <= k < |w.pages|
      ensures IsPage(w.pages[k]) && GetSyncStatus(w.pages[k].block.props) == Ok(false)
    {
      assert w.pages[k] in PagesOf(w.flat);
    }
  }

  /**
   * A run that succeeds ends with one commit per page the walks collected, in their order, every
   * one of them a page found unsynced; every write before the commits is a create or an append.
   */
  lemma RunCommitsLast(s: Store, items: seq<ContextItem>, wordDatabaseId: Id, expressionDatabaseId: Id,
                       clock: nat -> Instant, w: Walk)
    requires GetContexts(items).Ok? && Gather(items) == Ok(w)
    requires Run(s, items, wordDatabaseId, expressionDatabaseId, clock).1.Ok?
    ensures var s' := Run(s, items, wordDatabaseId, expressionDatabaseId, clock).0;
      var n := |s'.log| - |w.pages|;
      && 0 <= n
      && GrowsWithoutCommits(s.log, s'.log[..n])
      && s'.log[n..] == Commits(w.pages, clock, 0)
      && forall k :: 0 <= k < |w.pages| ==> IsPage(w.pages[k]) && GetSyncStatus(w.pages[k].block.props) == Ok(false)
  {
    var units := ExtractedUnits(w.flat);
    ResolveAllNeverCommits(s, units, wordDatabaseId, expressionDatabaseId);
    var s1 := ResolveAll(s, units, wordDatabaseId, expressionDatabaseId).0;
    CommitAllLog(s1, w.pages, clock, 0);
    var s' := CommitAll(s1, w.pages, clock, 0);
    assert s'.log[..|s1.log|] == s1.log;
    assert s'.log[|s1.log|..] == Commits(w.pages, clock, 0);
    GatheredPagesUnsynced(items, w);
  }

  /**
   * On a valid store only a context that is not a page, or a walk that fails, stops the run; a
   * completed run sends one write per unit and one commit per collected page, and keeps the
   * store valid.
   */
  lemma RunOnValidStore(s: Store, items: seq<ContextItem>, wordDatabaseId: Id, expressionDatabaseId: Id,
                        clock: nat -> Instant, w: Walk)
    requires StoreValid(s) && GetContexts(items).Ok? && Gather(items) == Ok(w)
    ensures var (s', r) := Run(s, items, wordDatabaseId, expressionDatabaseId, clock);
      && r.Ok? && StoreValid(s')
      && |s'.log| == |s.log| + |ExtractedUnits(w.flat)| + |w.pages|
  {
    var units := ExtractedUnits(w.flat);
    ResolveAllOnValidStore(s, units, wordDatabaseId, expressionDatabaseId);
    var s1 := ResolveAll(s, units, wordDatabaseId, expressionDatabaseId).0;
    CommitAllLog(s1, w.pages, clock, 0);
  }

  /**
   * The stamp a run commits makes the page read as synced at the next run exactly when its
   * last edit falls in or before the committed minute.
   */
  lemma CommittedPageReadsSynced(s: Store, pages: seq<Tagged>, clock: nat -> Instant, k: nat, edited: Instant)
    requires k < |pages| && forall j :: 0 <= j < |pages| && j != k ==> pages[j].block.id != pages[k].block.id
    requires LastEditedTime in pages[k].block.props
    requires pages[k].block.props[LastEditedTime] == LastEditedTimeProperty(At(edited))
    ensures var s' := CommitAll(s, pages, clock, 0);
      pages[k].block.id in s'.committed &&
      var props := pages[k].block.props[LastExtractedTime := s'.committed[pages[k].block.id]];
      GetSyncStatus(props) == Ok(edited.minute <= clock(k).minute)
  {
    CommittedStamp(s, pages, clock, 0, k);
    CommitThenSynced(pages[k].block.props, clock(k), edited);
  }

  /** A page committed once gets the stamp of its own clock reading. */
  lemma {:induction false} CommittedStamp(s: Store, pages: seq<Tagged>, clock: nat -> Instant, from: nat, k: nat)
    requires k < |pages| && forall j :: 0 <= j < |pages| && j != k ==> pages[j].block.id != pages[k].block.id
    ensures var s' := CommitAll(s, pages, clock, from);
      pages[k].block.id in s'.committed && s'.committed[pages[k].block.id] == ExtractionStamp(clock(from + k))
    decreases pages
  {
    var s1 := Apply(s, UpdatePage(pages[0].block.id, ExtractionStamp(clock(from))));
    if k == 0 {
      CommitAllStamps(s1, pages[1..], clock, from + 1);
      assert forall j :: 0 <= j < |pages[1..]| ==> pages[1..][j] == pages[j + 1];
    } else {
      assert forall j :: 0 <= j < |pages[1..]| ==> pages[1..][j] == pages[j + 1];
      CommittedStamp(s1, pages[1..], clock, from + 1, k - 1);
    }
  }

  /** The vocabulary workspace: its pages, the committed extraction times, and every write. */
  class Workspace {
    var pages: seq<Page>
    var committed: map<Id, Property>
    var log: seq<Write>

    function Snapshot(): Store
      reads this
    {
      Store(pages, committed, log)
    }

    constructor (s: Store)
      ensures Snapshot() == s
    {
      pages, committed, log := s.pages, s.committed, s.log;
    }

    /** `query_database` with the title filter: all pages of the result, in order. */
    method QueryDatabase(database: Id, title: string) returns (hits: seq<Page>)
      ensures hits == Matching(pages, database, title)
      ensures forall p :: p in hits <==> p in pages && p.database == database && p.title == title
    {
      hits := [];
      var i := 0;
      while i < |pages|
        invariant 0 <= i <= |pages|
        invariant hits == Matching(pages[..i], database, title)
      {
        MatchingSnoc(pages, i, database, title);
        if pages[i].database == database && pages[i].title == title {
          hits := hits + [pages[i]];
        }
        i := i + 1;
      }
      assert pages[..i] == pages;
    }

    /** `create_page`, `append_block_children` or `update_page`: one write to the workspace. */
    method Send(w: Write)
      modifies this
      ensures Snapshot() == Apply(old(Snapshot()), w)
    {
      match w {
        case CreatePage(database, title, children) =>
          pages := pages + [Page(FreshId(pages), database, title, children)];
        case AppendBlockChildren(pageId, children) =>
          pages := AppendTo(pages, pageId, children);
        case UpdatePage(pageId, lastExtracted) =>
          committed := committed[pageId := lastExtracted];
      }
      log := log + [w];
    }
  }

  /** `create_unit_page`: a page titled with the unit, holding one "Contexts" section. */
  method CreateUnitPage(ws: Workspace, unitName: string, unitUrl: string, database: Id)
    modifies ws
    ensures ws.Snapshot() == Apply(old(ws.Snapshot()), CreatePage(database, unitName, [ContextsSection(unitName, unitUrl)]))
  {
    ws.Send(CreatePage(database, unitName, [ContextsSection(unitName, unitUrl)]));
  }

  /** `append_new_context_to_unit`: the same section appended to an existing page. */
  method AppendNewContextToUnit(ws: Workspace, unitName: string, unitUrl: string, pageId: Id)
    modifies ws
    ensures ws.Snapshot() == Apply(old(ws.Snapshot()), AppendBlockChildren(pageId, [ContextsSection(unitName, unitUrl)]))
  {
    ws.Send(AppendBlockChildren(pageId, [ContextsSection(unitName, unitUrl)]));
  }

  /** `append_or_update_unit_in_database`: route, look the name up, then create or append. */
  method AppendOrUpdateUnitInDatabase(ws: Workspace, wordDatabaseId: Id, expressionDatabaseId: Id, unitBlock: Tagged)
    returns (r: Result<(), Error>)
    modifies ws
    ensures (ws.Snapshot(), r) == ResolveUnit(old(ws.Snapshot()), unitBlock, wordDatabaseId, expressionDatabaseId)
  {
    if unitBlock.unit.None? {
      return Err(KeyError("unit"));
    }
    var unitName := unitBlock.unit.value;
    var database := if ' ' in unitName then expressionDatabaseId else wordDatabaseId;
    var unitUrl := UrlForExtractedUnit(unitBlock).value;
    var hits := ws.QueryDatabase(database, unitName);
    var found := IfUnitInDatabase(unitName, hits);
    if found.Err? {
      return Err(found.error);
    }
    var unitPageId := found.value;
    if unitPageId.None? || unitPageId.value == "" {
      CreateUnitPage(ws, unitName, unitUrl, database);
    } else {
      AppendNewContextToUnit(ws, unitName, unitUrl, unitPageId.value);
    }
    return Ok(());
  }

  /** `update_extraction_time`: commit the minute of `now` as the page's "Last extracted time". */
  method UpdateExtractionTime(ws: Workspace, context: Tagged, now: Instant)
    modifies ws
    ensures ws.Snapshot() == Apply(old(ws.Snapshot()), UpdatePage(context.block.id, ExtractionStamp(now)))
  {
    ws.Send(UpdatePage(context.block.id, ExtractionStamp(now)));
  }

  lemma GatherAt(contexts: seq<ContextItem>, i: nat)
    requires i < |contexts|
    ensures Gather(contexts[i..]) ==
      match Unfold(contexts[i].tree)
      case Err(e) => Err(e)
      case Ok(w) => Then(w, Gather(contexts[i + 1..]))
  {
    assert contexts[i..][0] == contexts[i] && contexts[i..][1..] == contexts[i + 1..];
  }

  lemma ResolveAllAt(s: Store, units: seq<Tagged>, j: nat, wordDatabaseId: Id, expressionDatabaseId: Id)
    requires j < |units|
    ensures ResolveAll(s, units[j..], wordDatabaseId, expressionDatabaseId) ==
      var (s1, r1) := ResolveUnit(s, units[j], wordDatabaseId, expressionDatabaseId);
      if r1.Err? then (s1, r1) else ResolveAll(s1, units[j + 1..], wordDatabaseId, expressionDatabaseId)
  {
    assert units[j..][0] == units[j] && units[j..][1..] == units[j + 1..];
  }

  /** The first loop of the refresh: the walk of every context, joined in order. */
  method GatherContexts(cs: seq<ContextItem>) returns (r: Result<Walk, Error>)
    ensures r == Gather(cs)
  {
    var gathered := Nothing;
    var i := 0;
    while i < |cs|
      invariant 0 <= i <= |cs|
      invariant Then(gathered, Gather(cs[i..])) == Then(Nothing, Gather(cs))
    {
      GatherAt(cs, i);
      var walked := UnfoldBlockAndMarkSync(cs[i].tree);
      if walked.Err? {
        assert Gather(cs[i..]) == Err(walked.error);
        return Err(walked.error);
      }
      ThenJoin(gathered, walked.value, Gather(cs[i + 1..]));
      gathered := Join(gathered, walked.value);
      i := i + 1;
    }
    assert Join(gathered, Nothing) == gathered;
    assert Gather(cs).Ok? && Join(Nothing, Gather(cs).value) == Gather(cs).value;
    return Ok(gathered);
  }

  /** The second loop of the refresh: one resolve per unit, stopping at the first error. */
  method ResolveUnits(ws: Workspace, units: seq<Tagged>, wordDatabaseId: Id, expressionDatabaseId: Id)
    returns (r: Result<(), Error>)
    modifies ws
    ensures (ws.Snapshot(), r) == ResolveAll(old(ws.Snapshot()), units, wordDatabaseId, expressionDatabaseId)
  {
    ghost var start := ws.Snapshot();
    var j := 0;
    while j < |units|
      invariant 0 <= j <= |units|
      invariant ResolveAll(start, units, wordDatabaseId, expressionDatabaseId)
                == ResolveAll(ws.Snapshot(), units[j..], wordDatabaseId, expressionDatabaseId)
    {
      ResolveAllAt(ws.Snapshot(), units, j, wordDatabaseId, expressionDatabaseId);
      var resolved := AppendOrUpdateUnitInDatabase(ws, wordDatabaseId, expressionDatabaseId, units[j]);
      if resolved.Err? {
        return resolved;
      }
      j := j + 1;
    }
    return Ok(());
  }

  /** The last loop of the refresh: one extraction-time update per collected page. */
  method CommitPages(ws: Workspace, pages: seq<Tagged>, clock: nat -> Instant)
    modifies ws
    ensures ws.Snapshot() == CommitAll(old(ws.Snapshot()), pages, clock, 0)
  {
    ghost var start := ws.Snapshot();
    var k := 0;
    while k < |pages|
      invariant 0 <= k <= |pages|
      invariant CommitAll(start, pages, clock, 0) == CommitAll(ws.Snapshot(), pages[k..], clock, k)
    {
      assert pages[k..][0] == pages[k] && pages[k..][1..] == pages[k + 1..];
      UpdateExtractionTime(ws, pages[k], clock(k));
      k := k + 1;
    }
  }

  /** Once the contexts are read and walked, the run is the resolve loop followed by the commits. */
  lemma RunAfterWalk(s: Store, items: seq<ContextItem>, wordDatabaseId: Id, expressionDatabaseId: Id,
                     clock: nat -> Instant, w: Walk)
    requires GetContexts(items).Ok? && Gather(items) == Ok(w)
    ensures var resolved := ResolveAll(s, ExtractedUnits(w.flat), wordDatabaseId, expressionDatabaseId);
            Run(s, items, wordDatabaseId, expressionDatabaseId, clock)
            == if resolved.1.Err? then resolved else (CommitAll(resolved.0, w.pages, clock, 0), Ok(()))
  {
  }

  /**
   * `refresh_units_database_with_contexts`: the walks, the unit extraction, one resolve per
   * unit, and the commits last.
   */
  method RefreshUnitsDatabaseWithContexts(ws: Workspace, items: seq<ContextItem>, wordDatabaseId: Id,
                                          expressionDatabaseId: Id, clock: nat -> Instant)
    returns (r: Result<(), Error>)
    modifies ws
    ensures (ws.Snapshot(), r) == Run(old(ws.Snapshot()), items, wordDatabaseId, expressionDatabaseId, clock)
  {
    ghost var s0 := ws.Snapshot();
    var contexts := GetContextsFromDatabase(items);
    if contexts.Err? {
      assert Run(s0, items, wordDatabaseId, expressionDatabaseId, clock) == (s0, Err(contexts.error));
      return Err(contexts.error);
    }
    assert contexts.value == items;
    var gathered := GatherContexts(items);
    if gathered.Err? {
      assert Run(s0, items, wordDatabaseId, expressionDatabaseId, clock) == (s0, Err(gathered.error));
      return Err(gathered.error);
    }
    var units := ExtractUnits(gathered.value.flat);
    RunAfterWalk(s0, items, wordDatabaseId, expressionDatabaseId, clock, gathered.value);
    ghost var resolved := ResolveAll(s0, units, wordDatabaseId, expressionDatabaseId);
    var outcome := ResolveUnits(ws, units, wordDatabaseId, expressionDatabaseId);
    if outcome.Err? {
      return outcome;
    }
    ghost var s1 := ws.Snapshot();
    assert Run(s0, items, wordDatabaseId, expressionDatabaseId, clock)
           == (CommitAll(s1, gathered.value.pages, clock, 0), Ok(()));
    CommitPages(ws, gathered.value.pages, clock);
    return Ok(());
  }
}
