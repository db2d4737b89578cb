/** The page loop of the scraper: `main` (SDGsAction.py:195-243, the range scan) and the
    patch-mode cell (SDGsAction.py:254-292, the explicit page list), with the results
    spreadsheet as an object whose contents a load reads and a save overwrites. */
module Scraper {
  import opened Options
  import opened Fetcher
  import opened Links
  import opened Extractor

  /** One row of the results table: the page the link was found on, and its record. */
  datatype Row = Row(page: int, record: Record)

  /** A listing page, seen through its one lookup: the `div.view-content.row` block and
      its `div.views-row` children. */
  datatype ListingPage = ListingPage(viewContent: Option<seq<ListingRow>>)

  /** What a run sees of the outside world: the outcomes of the attempts to fetch each
      URL, and `urljoin`. */
  datatype Web = Web(
    listing: string -> seq<Attempt<ListingPage>>,
    detail: string -> seq<Attempt<DetailPage>>,
    join: (string, string) -> string)

  /** `main` scans a range of pages and returns when a listing page cannot be fetched;
      the patch cell walks a list and has no such guard. */
  datatype Mode = RangeScan | PatchList

  /** How a run ends: all pages done; `main` returned at a page whose listing fetch gave
      nothing; or an uncaught `AttributeError` at a page (no listing document in patch
      mode, or no `view-content row` block in either mode). */
  datatype RunEnd =
    | Finished
    | StoppedNoListing(page: int)
    | CrashedNoListing(page: int)
    | CrashedNoViewContent(page: int)

  /** The abstract result of a run: how it ended, the pages whose table was saved, and
      the rows appended, in order. */
  datatype RunTrace = RunTrace(end: RunEnd, completed: seq<int>, added: seq<Row>)

  /** The rows held by the results file; a missing file reads as an empty table. */
  function StoredRows(file: Option<seq<Row>>): seq<Row> {
    if file.Some? then file.value else []
  }

  /** `results.xlsx`. */
  class ResultsFile {
    /** The file: missing, or the rows it holds. */
    var stored: Option<seq<Row>>
    /** The page number of every save so far, in order. */
    ghost var saves: seq<int>

    constructor(initial: Option<seq<Row>>)
      ensures stored == initial && saves == []
    {
      stored := initial;
      saves := [];
    }

    /** Reading the table: the stored rows when the file exists, else an empty table
        (SDGsAction.py:213-217). */
    method Load() returns (df: seq<Row>)
      ensures df == StoredRows(stored)
    {
      df := if stored.Some? then stored.value else [];
    }

    /** Writing the table: the file is overwritten with it (SDGsAction.py:243). */
    method Save(df: seq<Row>, ghost page: int)
      modifies this
      ensures stored == Some(df) && saves == old(saves) + [page]
    {
      stored := Some(df);
      saves := saves + [page];
    }
  }

  /** The page numbers from `first` to `last` inclusive (SDGsAction.py:205). */
  function PageRange(first: int, last: int): (pages: seq<int>)
    ensures |pages| == if first <= last then last - first + 1 else 0
    ensures forall k :: 0 <= k < |pages| ==> pages[k] == first + k
    decreases last - first
  {
    if first > last then [] else [first] + PageRange(first + 1, last)
  }

  // ---------------------------------------------------------------------------
  // One link and one page
  // ---------------------------------------------------------------------------

  /** The rows one listing row adds: none if it has no usable link (`if ActionURL:`
      skips both `None` and the empty string) or if processing the link raises, else its
      record stamped with the page number. */
  function LinkRows(web: Web, page: int, baseUrl: string, row: ListingRow): seq<Row> {
    match AbsoluteUrl(row, baseUrl, web.join)
    case None => []
    case Some(url) =>
      if url == "" then []
      else
        match ProcessAction(FetchResult(web.detail(url), DefaultRetries).doc)
        case Err(_) => []
        case Ok(rec) => [Row(page, rec)]
  }

  /** The rows a run of listing rows adds, given what each one adds: those of each row,
      in row order. */
  function RowsOf(link: ListingRow -> seq<Row>, rows: seq<ListingRow>): seq<Row> {
    if rows == [] then []
    else RowsOf(link, rows[..|rows| - 1]) + link(rows[|rows| - 1])
  }

  /** What each listing row of a page adds. */
  function EachLink(web: Web, page: int, baseUrl: string): ListingRow -> seq<Row> {
    row => LinkRows(web, page, baseUrl, row)
  }

  /** `link` gives what each listing row of the page adds. */
  ghost predicate IsLinkOf(web: Web, page: int, baseUrl: string, link: ListingRow -> seq<Row>) {
    forall row {:trigger LinkRows(web, page, baseUrl, row)} :: link(row) == LinkRows(web, page, baseUrl, row)
  }

  lemma EachLinkIsLinkOf(web: Web, page: int, baseUrl: string)
    ensures IsLinkOf(web, page, baseUrl, EachLink(web, page, baseUrl))
  {
  }

  /** The rows a page adds: those of its listing rows, in row order. */
  function PageRows(web: Web, page: int, baseUrl: string, rows: seq<ListingRow>): seq<Row> {
    RowsOf(EachLink(web, page, baseUrl), rows)
  }

  /** What the listing fetch for `page` gives. */
  function ListingDoc(web: Web, page: int): Option<ListingPage> {
    FetchResult(web.listing(ListingUrl(page)), DefaultRetries).doc
  }

  /** How one page of the loop ends: its table saved with these rows appended, or the
      run ended at it. */
  datatype PageOutcome = Saved(rows: seq<Row>) | Stopped(end: RunEnd)

  /** One page of the loop: fetch its listing, find the `view-content row` block and
      collect the rows of its links. */
  function PageStep(web: Web, mode: Mode, page: int): PageOutcome {
    var soup := ListingDoc(web, page);
    if soup.None? then
      Stopped(if mode == RangeScan then StoppedNoListing(page) else CrashedNoListing(page))
    else if soup.value.viewContent.None? then
      Stopped(CrashedNoViewContent(page))
    else
      Saved(PageRows(web, page, ListingUrl(page), soup.value.viewContent.value))
  }

  /** The run over `pages`, given what each page's step gives. */
  function RunOf(step: int -> PageOutcome, pages: seq<int>): RunTrace
    decreases |pages|
  {
    if pages == [] then RunTrace(Finished, [], [])
    else
      match step(pages[0])
      case Stopped(end) => RunTrace(end, [], [])
      case Saved(rows) =>
        var rest := RunOf(step, pages[1..]);
        RunTrace(rest.end, [pages[0]] + rest.completed, rows + rest.added)
  }

  /** `step` gives the step of every page. */
  ghost predicate IsStepOf(web: Web, mode: Mode, step: int -> PageOutcome) {
    forall p {:trigger PageStep(web, mode, p)} :: step(p) == PageStep(web, mode, p)
  }

  /** The step of every page. */
  function Steps(web: Web, mode: Mode): int -> PageOutcome {
    p => PageStep(web, mode, p)
  }

  /** The whole run over `pages`. */
  function RunSpec(web: Web, mode: Mode, pages: seq<int>): RunTrace {
    RunOf(Steps(web, mode), pages)
  }

  // ---------------------------------------------------------------------------
  // The imperative loop
  // ---------------------------------------------------------------------------

  /** `process_action_url(ActionURL)`: fetch the detail page, then extract its record. */
  method ProcessActionUrl(web: Web, url: string) returns (r: Result<Record, ExtractError>)
    ensures r == ProcessAction(FetchResult(web.detail(url), DefaultRetries).doc)
    ensures r.Err? <==> FetchResult(web.detail(url), DefaultRetries).doc.None?
  {
    var detail, _ := Fetch(web.detail(url), DefaultRetries);
    r := ProcessAction(detail);
  }

  /** The body of the `for row in views_rows` loop: the rows one listing row adds. */
  method LinkStep(web: Web, page: int, baseUrl: string, row: ListingRow, ghost link: ListingRow -> seq<Row>)
    returns (add: seq<Row>)
    requires IsLinkOf(web, page, baseUrl, link)
    ensures add == link(row)
  {
    assert link(row) == LinkRows(web, page, baseUrl, row);
    add := [];
    var actionUrl := AbsoluteUrl(row, baseUrl, web.join);
    if actionUrl.Some? && actionUrl.value != "" {
      var r := ProcessActionUrl(web, actionUrl.value);
      if r.Ok? {
        add := [Row(page, r.value)];
      }
    }
  }

  /** The `for row in views_rows` loop: appends the rows of one page to `df`. */
  method AppendPageRows(web: Web, page: int, baseUrl: string, rows: seq<ListingRow>, df0: seq<Row>,
                        ghost link: ListingRow -> seq<Row>)
    returns (df: seq<Row>)
    requires IsLinkOf(web, page, baseUrl, link)
    ensures df == df0 + RowsOf(link, rows)
  {
    df := df0;
    var j := 0;
    while j < |rows|
      invariant 0 <= j <= |rows|
      invariant df == df0 + RowsOf(link, rows[..j])
    {
      var add := LinkStep(web, page, baseUrl, rows[j], link);
      assert rows[..j + 1][..j] == rows[..j];
      AppendAssoc(df0, RowsOf(link, rows[..j]), add);
      df := df + add;
      j := j + 1;
    }
    assert rows[..j] == rows;
  }

  /** One iteration of the page loop: fetch the listing, load the table, append the rows
      of every link and save. Returns how the run ends if it ends at this page. */
  method ScanPage(web: Web, mode: Mode, page: int, file: ResultsFile, ghost step: int -> PageOutcome)
    returns (stop: Option<RunEnd>)
    requires IsStepOf(web, mode, step)
    modifies file
    ensures stop.Some? <==> step(page).Stopped?
    ensures stop.Some? ==> stop.value == step(page).end
    ensures stop.Some? ==> file.stored == old(file.stored) && file.saves == old(file.saves)
    ensures stop.None? ==>
      file.stored == Some(StoredRows(old(file.stored)) + step(page).rows)
      && file.saves == old(file.saves) + [page]
  {
    assert step(page) == PageStep(web, mode, page);
    var baseUrl := ListingUrl(page);
    var soup, _ := Fetch(web.listing(baseUrl), DefaultRetries);
    if soup.None? {
      return Some(if mode == RangeScan then StoppedNoListing(page) else CrashedNoListing(page));
    }
    var df := file.Load();
    if soup.value.viewContent.None? {
      return Some(CrashedNoViewContent(page));
    }
    EachLinkIsLinkOf(web, page, baseUrl);
    df := AppendPageRows(web, page, baseUrl, soup.value.viewContent.value, df, EachLink(web, page, baseUrl));
    file.Save(df, page);
    return None;
  }

  /** The loop over `pages`, one `ScanPage` per page until one ends the run. */
  method RunPages(web: Web, mode: Mode, pages: seq<int>, file: ResultsFile, ghost step: int -> PageOutcome)
    returns (end: RunEnd)
    requires IsStepOf(web, mode, step)
    modifies file
    ensures var t := RunOf(step, pages);
      end == t.end
      && file.saves == old(file.saves) + t.completed
      && file.stored == (if t.completed == [] then old(file.stored)
                         else Some(StoredRows(old(file.stored)) + t.added))
  {
    var i := 0;
    ghost var added: seq<Row> := [];
    while i < |pages|
      invariant 0 <= i <= |pages|
      invariant RunOf(step, pages) == Resume(pages[..i], added, RunOf(step, pages[i..]))
      invariant file.saves == old(file.saves) + pages[..i]
      invariant i == 0 ==> file.stored == old(file.stored) && added == []
      invariant i > 0 ==> file.stored == Some(StoredRows(old(file.stored)) + added)
    {
      RunStep(step, pages, i, added);
      ghost var before := file.stored;
      var stop := ScanPage(web, mode, pages[i], file, step);
      if stop.Some? {
        return stop.value;
      }
      assert StoredRows(before) == StoredRows(old(file.stored)) + added;
      AppendAssoc(StoredRows(old(file.stored)), added, step(pages[i]).rows);
      added := added + step(pages[i]).rows;
      i := i + 1;
    }
    RunDone(step, pages, added);
    return Finished;
  }

  lemma AppendAssoc<T>(a: seq<T>, b: seq<T>, c: seq<T>)
    ensures (a + b) + c == a + (b + c)
  {
  }

  /** The trace of a run that has saved `done`, appending `added`, and then goes on as `t`. */
  function Resume(done: seq<int>, added: seq<Row>, t: RunTrace): RunTrace {
    RunTrace(t.end, done + t.completed, added + t.added)
  }

  /** One step of the loop of `RunPages`, seen on the traces. */
  lemma RunStep(step: int -> PageOutcome, pages: seq<int>, i: nat, added: seq<Row>)
    requires i < |pages|
    ensures pages[..i + 1] == pages[..i] + [pages[i]]
    ensures step(pages[i]).Stopped? ==>
      Resume(pages[..i], added, RunOf(step, pages[i..])) == RunTrace(step(pages[i]).end, pages[..i], added)
    ensures step(pages[i]).Saved? ==>
      Resume(pages[..i], added, RunOf(step, pages[i..]))
        == Resume(pages[..i + 1], added + step(pages[i]).rows, RunOf(step, pages[i + 1..]))
  {
    var s := pages[i..];
    assert s[1..] == pages[i + 1..] && s[0] == pages[i];
    assert pages[..i + 1] == pages[..i] + [pages[i]];
    if step(pages[i]).Stopped? {
      assert pages[..i] + [] == pages[..i];
      assert added + [] == added;
    } else {
      var rest := RunOf(step, pages[i + 1..]);
      AppendAssoc(pages[..i], [pages[i]], rest.completed);
      AppendAssoc(added, step(pages[i]).rows, rest.added);
    }
  }

  /** The end of the loop of `RunPages`. */
  lemma RunDone(step: int -> PageOutcome, pages: seq<int>, added: seq<Row>)
    ensures Resume(pages[..|pages|], added, RunOf(step, pages[|pages|..])) == RunTrace(Finished, pages, added)
  {
    assert pages[|pages|..] == [] && pages[..|pages|] == pages;
    assert pages + [] == pages && added + [] == added;
  }

  /** The pages `main` scans (`start = 429`, `end = 450`) and the pages the patch cell
      revisits (`leftPages`). */
  const StartPage: int := 429
  const EndPage: int := 450
  const LeftPages: seq<int> := [234, 245, 428]

  /** `main()`: the range scan from `first` to `last` inclusive. */
  method ScanRange(web: Web, first: int, last: int, file: ResultsFile) returns (end: RunEnd)
    modifies file
    ensures var t := RunSpec(web, RangeScan, PageRange(first, last));
      end == t.end
      && file.saves == old(file.saves) + t.completed
      && file.stored == (if t.completed == [] then old(file.stored)
                         else Some(StoredRows(old(file.stored)) + t.added))
  {
    end := RunPages(web, RangeScan, PageRange(first, last), file, Steps(web, RangeScan));
  }

  /** The patch cell: the same loop over an explicit list of page numbers. */
  method ScanList(web: Web, pages: seq<int>, file: ResultsFile) returns (end: RunEnd)
    modifies file
    ensures var t := RunSpec(web, PatchList, pages);
      end == t.end
      && file.saves == old(file.saves) + t.completed
      && file.stored == (if t.completed == [] then old(file.stored)
                         else Some(StoredRows(old(file.stored)) + t.added))
  {
    end := RunPages(web, PatchList, pages, file, Steps(web, PatchList));
  }

  // ---------------------------------------------------------------------------
  // Properties of one page
  // ---------------------------------------------------------------------------

  /** Whatever each listing row adds, the rows of two runs of listing rows, one after the
      other, are the rows of each in turn. */
  lemma {:induction false} RowsOfAppend(link: ListingRow -> seq<Row>, a: seq<ListingRow>, b: seq<ListingRow>)
    ensures RowsOf(link, a + b) == RowsOf(link, a) + RowsOf(link, b)
    decreases |b|
  {
    if b == [] {
      assert a + b == a;
    } else {
      var b' := b[..|b| - 1];
      assert (a + b)[..|a + b| - 1] == a + b';
      assert (a + b)[|a + b| - 1] == b[|b| - 1];
      RowsOfAppend(link, a, b');
      AppendAssoc(RowsOf(link, a), RowsOf(link, b'), link(b[|b| - 1]));
    }
  }

  /** Links are processed independently: the rows of two runs of listing rows, one after
      the other, are the rows of each in turn. */
  lemma PageRowsAppend(web: Web, page: int, baseUrl: string, a: seq<ListingRow>, b: seq<ListingRow>)
    ensures PageRows(web, page, baseUrl, a + b) == PageRows(web, page, baseUrl, a) + PageRows(web, page, baseUrl, b)
  {
    RowsOfAppend(EachLink(web, page, baseUrl), a, b);
  }

  /** Every row a page adds carries that page's number, and a page adds at most one row
      per listing row. */
  lemma {:induction false} PageRowsStamped(web: Web, page: int, baseUrl: string, rows: seq<ListingRow>)
    ensures |PageRows(web, page, baseUrl, rows)| <= |rows|
    ensures forall r :: r in PageRows(web, page, baseUrl, rows) ==> r.page == page
  {
    if rows != [] {
      PageRowsStamped(web, page, baseUrl, rows[..|rows| - 1]);
      LinkRowsStamped(web, page, baseUrl, rows[|rows| - 1]);
      assert PageRows(web, page, baseUrl, rows)
        == PageRows(web, page, baseUrl, rows[..|rows| - 1]) + LinkRows(web, page, baseUrl, rows[|rows| - 1]);
    }
  }

  /** A listing row adds at most one row, and only one stamped with the page number. */
  lemma LinkRowsStamped(web: Web, page: int, baseUrl: string, row: ListingRow)
    ensures |LinkRows(web, page, baseUrl, row)| <= 1
    ensures forall r :: r in LinkRows(web, page, baseUrl, row) ==> r.page == page
  {
  }

  /** A link whose detail page cannot be fetched (processing it raises) adds no row. */
  lemma FailedDetailAddsNothing(web: Web, page: int, baseUrl: string, row: ListingRow)
    requires AbsoluteUrl(row, baseUrl, web.join).Some?
    requires FetchResult(web.detail(AbsoluteUrl(row, baseUrl, web.join).value), DefaultRetries).doc.None?
    ensures LinkRows(web, page, baseUrl, row) == []
  {
  }

  lemma PageRowsOne(web: Web, page: int, baseUrl: string, row: ListingRow)
    ensures PageRows(web, page, baseUrl, [row]) == LinkRows(web, page, baseUrl, row)
  {
    assert [row][..0] == [] && [row][0] == row;
    assert RowsOf(EachLink(web, page, baseUrl), [row]) == [] + EachLink(web, page, baseUrl)(row);
  }

  /** A listing row that adds nothing leaves the rows of the page those of the others. */
  lemma DropEmptyLink(web: Web, page: int, baseUrl: string, before: seq<ListingRow>, row: ListingRow, after: seq<ListingRow>)
    requires LinkRows(web, page, baseUrl, row) == []
    ensures PageRows(web, page, baseUrl, before + [row] + after)
         == PageRows(web, page, baseUrl, before) + PageRows(web, page, baseUrl, after)
  {
    PageRowsAppend(web, page, baseUrl, before + [row], after);
    PageRowsAppend(web, page, baseUrl, before, [row]);
    PageRowsOne(web, page, baseUrl, row);
    var a := PageRows(web, page, baseUrl, before);
    assert a + [] == a;
  }

  /** A listing row whose link resolves to a fetchable detail page adds exactly its
      record, stamped with the page number. */
  lemma ResolvedLinkAddsRecord(web: Web, page: int, baseUrl: string, row: ListingRow, d: DetailPage)
    requires AbsoluteUrl(row, baseUrl, web.join).Some?
    requires AbsoluteUrl(row, baseUrl, web.join).value != ""
    requires FetchResult(web.detail(AbsoluteUrl(row, baseUrl, web.join).value), DefaultRetries).doc == Some(d)
    ensures LinkRows(web, page, baseUrl, row) == [Row(page, Extract(d))]
  {
  }

  /** A listing page with two rows that both resolve to fetchable detail pages adds two
      rows, in row order, each stamped with the page number. */
  lemma TwoRowPage(web: Web, page: int, baseUrl: string, r1: ListingRow, r2: ListingRow, d1: DetailPage, d2: DetailPage)
    requires AbsoluteUrl(r1, baseUrl, web.join).Some? && AbsoluteUrl(r1, baseUrl, web.join).value != ""
    requires AbsoluteUrl(r2, baseUrl, web.join).Some? && AbsoluteUrl(r2, baseUrl, web.join).value != ""
    requires FetchResult(web.detail(AbsoluteUrl(r1, baseUrl, web.join).value), DefaultRetries).doc == Some(d1)
    requires FetchResult(web.detail(AbsoluteUrl(r2, baseUrl, web.join).value), DefaultRetries).doc == Some(d2)
    ensures PageRows(web, page, baseUrl, [r1, r2]) == [Row(page, Extract(d1)), Row(page, Extract(d2))]
  {
    ResolvedLinkAddsRecord(web, page, baseUrl, r1, d1);
    ResolvedLinkAddsRecord(web, page, baseUrl, r2, d2);
    PageRowsAppend(web, page, baseUrl, [r1], [r2]);
    assert [r1] + [r2] == [r1, r2];
    assert [r1][..0] == [];
    assert PageRows(web, page, baseUrl, [r1]) == [Row(page, Extract(d1))];
    assert PageRows(web, page, baseUrl, [r2]) == [Row(page, Extract(d2))];
  }

  // ---------------------------------------------------------------------------
  // Properties of a run
  // ---------------------------------------------------------------------------

  /** The rows the saved pages among `pages` add, page after page. */
  function SavedRows(step: int -> PageOutcome, pages: seq<int>): seq<Row> {
    if pages == [] then []
    else (if step(pages[0]).Saved? then step(pages[0]).rows else []) + SavedRows(step, pages[1..])
  }

  /** Whatever the steps: the pages saved are a prefix of `pages`, every one of them saved
      by its step; the run finishes exactly when all pages are saved, and otherwise ends as
      the step of the next page does; the rows added are those of the saved pages. */
  lemma {:induction false} RunOfShape(step: int -> PageOutcome, pages: seq<int>)
    ensures var t := RunOf(step, pages);
      |t.completed| <= |pages| && t.completed == pages[..|t.completed|]
      && (forall k :: 0 <= k < |t.completed| ==> step(pages[k]).Saved?)
      && (|t.completed| < |pages| ==>
            step(pages[|t.completed|]).Stopped? && t.end == step(pages[|t.completed|]).end)
      && (|t.completed| == |pages| ==> t.end == Finished)
      && t.added == SavedRows(step, t.completed)
    decreases |pages|
  {
    if pages != [] && step(pages[0]).Saved? {
      RunOfShape(step, pages[1..]);
      var rest := RunOf(step, pages[1..]);
      var c := [pages[0]] + rest.completed;
      assert c == pages[..|c|];
      assert c[0] == pages[0] && c[1..] == rest.completed;
      forall k | 1 <= k < |c| ensures step(pages[k]).Saved? {
        assert pages[k] == pages[1..][k - 1];
      }
    }
  }

  /** A page's step stops the run exactly when its listing document or its
      `view-content row` block is missing, never with `Finished`, and with the end that
      names the reason and the page. */
  lemma PageStepStops(web: Web, mode: Mode, page: int)
    ensures var soup := ListingDoc(web, page);
      (PageStep(web, mode, page).Stopped? <==> soup.None? || soup.value.viewContent.None?)
      && (soup.None? ==>
            PageStep(web, mode, page).end == (if mode == RangeScan then StoppedNoListing(page) else CrashedNoListing(page)))
      && (soup.Some? && soup.value.viewContent.None? ==>
            PageStep(web, mode, page).end == CrashedNoViewContent(page))
  {
  }

  /** The pages a run saves are the pages it was given, up to the first one that stops it;
      it finishes exactly when it saves them all; when it stops, that is at the page after
      the last one saved, for the reason the end names; and the rows it adds are those
      of the saved pages, page after page. */
  lemma RunShape(web: Web, mode: Mode, pages: seq<int>)
    ensures var t := RunSpec(web, mode, pages);
      |t.completed| <= |pages| && t.completed == pages[..|t.completed|]
      && (t.end == Finished <==> t.completed == pages)
      && t.added == SavedRows(Steps(web, mode), t.completed)
      && (forall k :: 0 <= k < |t.completed| ==>
            ListingDoc(web, pages[k]).Some? && ListingDoc(web, pages[k]).value.viewContent.Some?)
      && (t.end != Finished ==>
            var p := pages[|t.completed|];
            (ListingDoc(web, p).None? && t.end == (if mode == RangeScan then StoppedNoListing(p) else CrashedNoListing(p)))
            || (ListingDoc(web, p).Some? && ListingDoc(web, p).value.viewContent.None? && t.end == CrashedNoViewContent(p)))
  {
    var step := Steps(web, mode);
    RunOfShape(step, pages);
    var t := RunOf(step, pages);
    forall k | 0 <= k < |t.completed|
      ensures ListingDoc(web, pages[k]).Some? && ListingDoc(web, pages[k]).value.viewContent.Some?
    {
      PageStepStops(web, mode, pages[k]);
    }
    if |t.completed| < |pages| {
      PageStepStops(web, mode, pages[|t.completed|]);
    }
  }

  /** A listing page that cannot be fetched stops the run: no page from it on is saved. */
  lemma FailedListingStopsRun(web: Web, mode: Mode, pages: seq<int>, k: nat)
    requires k < |pages| && ListingDoc(web, pages[k]).None?
    ensures |RunSpec(web, mode, pages).completed| <= k
    ensures RunSpec(web, mode, pages).end != Finished
  {
    RunShape(web, mode, pages);
  }

  /** The end of the range scan for the end of the patch list on the same pages: where the
      patch cell crashes on a missing listing document, `main` returns at that page. */
  function RangeEndOf(patchEnd: RunEnd): RunEnd {
    match patchEnd
    case CrashedNoListing(p) => StoppedNoListing(p)
    case _ => patchEnd
  }

  /** The range scan and the patch list save the same pages and add the same rows; they
      end at the same page for the same reason, and differ only in that a missing listing
      document makes `main` return where the patch cell crashes. */
  lemma {:induction false} ModesAgree(web: Web, pages: seq<int>)
    ensures RunSpec(web, RangeScan, pages).completed == RunSpec(web, PatchList, pages).completed
    ensures RunSpec(web, RangeScan, pages).added == RunSpec(web, PatchList, pages).added
    ensures RunSpec(web, RangeScan, pages).end == RangeEndOf(RunSpec(web, PatchList, pages).end)
    ensures !RunSpec(web, RangeScan, pages).end.CrashedNoListing?
    ensures !RunSpec(web, PatchList, pages).end.StoppedNoListing?
    ensures RunSpec(web, RangeScan, pages).end.StoppedNoListing?
        <==> RunSpec(web, PatchList, pages).end.CrashedNoListing?
    decreases |pages|
  {
    if pages != [] {
      ModesAgree(web, pages[1..]);
    }
  }

  /** Each row the run adds carries the number of a page the run saved. */
  lemma {:induction false} AddedRowsStamped(web: Web, mode: Mode, pages: seq<int>)
    ensures forall r :: r in SavedRows(Steps(web, mode), pages) ==> r.page in pages
    decreases |pages|
  {
    if pages != [] {
      AddedRowsStamped(web, mode, pages[1..]);
      var soup := ListingDoc(web, pages[0]);
      if soup.Some? && soup.value.viewContent.Some? {
        PageRowsStamped(web, pages[0], ListingUrl(pages[0]), soup.value.viewContent.value);
      }
      assert forall p :: p in pages[1..] ==> p in pages;
    }
  }

  /** `main()` as configured: pages 429 to 450. */
  method ScanConfiguredRange(web: Web, file: ResultsFile) returns (end: RunEnd)
    modifies file
    ensures var t := RunSpec(web, RangeScan, PageRange(StartPage, EndPage));
      end == t.end
      && file.saves == old(file.saves) + t.completed
      && file.stored == (if t.completed == [] then old(file.stored)
                         else Some(StoredRows(old(file.stored)) + t.added))
  {
    end := ScanRange(web, StartPage, EndPage, file);
  }

  /** The patch cell as written: pages 234, 245 and 428. */
  method ScanLeftPages(web: Web, file: ResultsFile) returns (end: RunEnd)
    modifies file
    ensures var t := RunSpec(web, PatchList, LeftPages);
      end == t.end
      && file.saves == old(file.saves) + t.completed
      && file.stored == (if t.completed == [] then old(file.stored)
                         else Some(StoredRows(old(file.stored)) + t.added))
  {
    end := ScanList(web, LeftPages, file);
  }

  /** The configured range is the 22 pages 429 to 450, fetched from listing offsets 428
      to 449. */
  lemma ConfiguredRange()
    ensures |PageRange(StartPage, EndPage)| == 22
    ensures PageRange(StartPage, EndPage)[0] == 429 && PageRange(StartPage, EndPage)[21] == 450
  {
  }
}
