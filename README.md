# SDGs partnership scraper, modelled in Dafny

`SDGsAction.py` scrapes the UN partnership catalogue at `https://sdgs.un.org/partnerships`. It
walks the paginated listing and follows every action link on a page. For each action it
fetches the detail page and extracts ten text fields: Title, Initiator, ActionID, Type,
StartTime, EndTime, Countries, Region, GeographicalCoverage and SDGs. Each field is cleaned
with `clean_text`. The record is stamped with its page number and appended to the
spreadsheet `results.xlsx`, which is reloaded and rewritten once per page. There are two
drivers:

- `main` scans the pages 429 to 450 and returns as soon as a listing page cannot be
  fetched;
- the patch cell revisits the pages 234, 245 and 428 and has no such guard.

The model has six modules:

| file | module | models |
|---|---|---|
| `options.dfy` | `Options` | `Option` and `Result` |
| `text.dfy` | `TextClean` | `clean_text`, as the words of the text joined by single spaces, with Python's whitespace set; the rule that joins a field's items with commas, or gives `'-'` when there are none |
| `fetch.dfy` | `Fetcher` | `get_soup_from_url`: a method with the retry loop, proved equal to a specification function over the outcomes of the attempts |
| `links.dfy` | `Links` | `get_absolute_url`, and the listing URL of a page, whose query offset is the page number less one |
| `extract.dfy` | `Extractor` | `process_action_url`: the lookups and `'-'` fallbacks of every field, then the cleaning of every field |
| `scraper.dfy` | `Scraper` | the page loop of `main` and of the patch cell, and `results.xlsx` as an object with a load and an overwriting save |

## How the outside world is represented

- A `Web` value gives, for every URL, the outcome of each fetch attempt in turn. An attempt
  is a 200 response with a parsed document, another status, or a transport error. The
  value also carries the URL join as a function `join`. A URL fetched twice sees the
  same outcomes both times. This matters for a detail link that appears twice, or for a
  page number repeated in the patch list.
- A parsed page is represented only by what the script looks up in it:
  - a `ListingPage` holds the `view-content row` block and its `views-row` children;
  - a `DetailPage` holds, for each field, the element found, its text (already stripped by
    `get_text(strip=True)`), or nothing.
- The results file is a `ResultsFile` object.
  - Its field `stored` is `None` while the file does not exist. Otherwise it holds the rows.
  - A ghost log `saves` records the page number of every save. It is a proof device only.
- A run's methods are proved against the specification function `RunSpec`.
  - `RunSpec` gives how the run ends, which pages were saved, and the rows appended.
  - A run may end at three points:
    - `main` returns when a listing fetch fails (`StoppedNoListing`);
    - the patch cell raises `AttributeError` on a missing listing document
      (`CrashedNoListing`);
    - both raise when the `view-content row` block is missing (`CrashedNoViewContent`).
- The methods `RunPages`, `ScanPage`, `AppendPageRows` and `LinkStep` take ghost parameters
  `step` and `link`. These stand for the per-page and per-row specification functions. The
  predicates `IsStepOf` and `IsLinkOf` tie them to `PageStep` and `LinkRows`. They are proof
  devices that keep the detailed extraction out of the loop proofs. They are not state of
  the script.

Two behaviours of the code worth noting:

- The detail page is fetched through `get_soup_from_url` with its default of 3 attempts
  (SDGsAction.py:56), so transport errors on a detail page are retried too.
- When the `view-content row` block is missing, the script prints a message and then
  calls `find_all` on `None` (SDGsAction.py:224-228 and 273-277). That raises outside any
  `try`, so the run ends in both modes. It does not go on with zero rows.

## Model

| member | source | states |
|---|---|---|
| TextClean.Split | SDGsAction.py:13 | Python's `str.split()` with no argument: the maximal runs of non-whitespace characters, in order; its properties are `SplitWords`, `SplitKeepsNonSpace` and `SplitJoin` |
| TextClean.Join | SDGsAction.py:13 | Python's string join: the items with the separator between each two; `SplitJoin`, `JoinWordsNormalized` and `JoinOrDashRoundTrip` state what it gives |
| TextClean.CleanText | SDGsAction.py:11-13 | `clean_text`: the input's words joined by single spaces; `CleanTextNormalized`, `CleanTextKeepsWords` and `CleanTextFixedPoints` state what the result is |
| TextClean.JoinOrDash | SDGsAction.py:124 | the field rule of SDGs, Region and Countries: the items joined with commas, or `'-'` for no items; `JoinOrDashRoundTrip` and `JoinOrDashAmbiguous` say when it can be read back |
| TextClean.SplitWords | SDGsAction.py:13 | every piece `str.split()` returns is a non-empty run of non-whitespace characters |
| TextClean.SplitKeepsNonSpace | SDGsAction.py:13 | concatenating the pieces of `str.split()` gives exactly the non-whitespace characters of the input, in order |
| TextClean.SplitJoin | SDGsAction.py:13 | splitting the space-join of whitespace-free words gives back the same words |
| TextClean.JoinWordsNormalized | SDGsAction.py:13 | the space-join of words has no outer whitespace and no doubled separator |
| TextClean.CleanTextNormalized | SDGsAction.py:11-13 | the result of `clean_text` has no leading or trailing whitespace, no whitespace other than plain spaces, and no two whitespace characters side by side |
| TextClean.CleanTextKeepsWords | SDGsAction.py:11-13 | the result of `clean_text` splits into exactly the words of the input: words are never merged or split, so each run of whitespace between two words becomes one space |
| TextClean.CleanTextKeepsNonSpace | SDGsAction.py:11-13 | `clean_text` keeps every non-whitespace character, in order, and adds none |
| TextClean.CleanTextOfWord | SDGsAction.py:11-13 | a single whitespace-free word is returned unchanged |
| TextClean.CleanTextOfNormalized | SDGsAction.py:11-13 | a string already normalized is returned unchanged |
| TextClean.CleanTextFixedPoints | SDGsAction.py:11-13 | `clean_text(s) == s` exactly when `s` is normalized (both directions) |
| TextClean.CleanTextIdempotent | SDGsAction.py:11-13 | cleaning twice gives the same as cleaning once |
| TextClean.CleanTextEmptyIffAllSpace | SDGsAction.py:11-13 | the result is empty exactly when the input is all whitespace |
| TextClean.CleanTextExample | SDGsAction.py:11-13 | `"  a   b\n c "` cleans to `"a b c"` |
| TextClean.JoinOrDashRoundTrip | SDGsAction.py:124 | for a non-empty list of comma-free items, splitting the joined field on commas gives the items back; it reads as `'-'` only when the list is `['-']` |
| TextClean.JoinOrDashAmbiguous | SDGsAction.py:124 | the joined field cannot always be read back: `['a,b']` and `['a','b']` join alike, `['-']` joins like the empty list, and `['']` joins to the empty string |
| Fetcher.FetchFrom | SDGsAction.py:17-35 | the attempts from a given one on: a 200 returns its document, another status returns nothing, a transport error tries the next attempt unless it was the last; `FetchFromShape` states the result |
| Fetcher.FetchResult | SDGsAction.py:15-35 | what `get_soup_from_url` returns for a list of attempt outcomes and a budget; `FetchShape` characterizes it completely |
| Fetcher.Fetch | SDGsAction.py:15-35 | the retry loop returns the document and attempt count of the specification `FetchResult` |
| Fetcher.FetchFromShape | SDGsAction.py:17-35 | from any attempt on: the attempts used stay within the budget; all but the last were transport errors; a document comes back exactly when the last attempt was a 200, and it is that attempt's document; stopping early means the last attempt was not a transport error |
| Fetcher.FetchShape | SDGsAction.py:15-35 | the same shape for a whole call; a budget of zero or less makes no attempt and gives nothing |
| Fetcher.FetchFromOnlyBudget | SDGsAction.py:17 | outcomes beyond the retry budget do not affect the result |
| Fetcher.FetchResultOnlyBudget | SDGsAction.py:15-17 | a whole call gives the same result for any two outcome lists that agree on the attempts within the budget |
| Fetcher.FetchRecoversOnThirdAttempt | SDGsAction.py:15-35 | two transport errors and then a 200 give the document, after 3 attempts |
| Fetcher.FetchGivesUpAfterBudget | SDGsAction.py:28-35 | when every attempt is a transport error, the call gives nothing after exactly 3 attempts |
| Fetcher.FetchBadStatusStops | SDGsAction.py:23-27 | a non-200 status on the first attempt gives nothing, with no retry |
| Links.AbsoluteUrl | SDGsAction.py:37-52 | no URL exactly when the `field-content` span, its `<a>`, or the `href` is missing; otherwise the join of the base URL and the `href` |
| Links.NatToDecimal | SDGsAction.py:206 | the decimal text of a natural number: non-empty, and made of digits only |
| Links.IntToDecimal | SDGsAction.py:206 | Python's decimal text of an integer, with a minus sign when it is negative; `IntToDecimalRoundTrip` reads it back |
| Links.ListingUrl | SDGsAction.py:206 | the listing URL of a page: the browse prefix and the decimal text of `page - 1`; `ListingUrlOffset` and `ListingUrlInjective` state its shape |
| Links.NatToDecimalRoundTrip | SDGsAction.py:206 | the decimal text of a page offset reads back as the same number |
| Links.IntToDecimalRoundTrip | SDGsAction.py:206 | the same for a signed offset, which is negative for pages below 1 |
| Links.ListingUrlOffset | SDGsAction.py:206 | a listing URL is the fixed prefix followed by the decimal text of `page - 1` |
| Links.ListingUrlInjective | SDGsAction.py:206 | different page numbers give different listing URLs |
| Extractor.AnchorTexts | SDGsAction.py:122-123 | the texts of the goal spans that hold an anchor, in order; `AnchorTextsAppend`, `AnchorTextsEmpty` and `AnchorTextsInOrder` state it |
| Extractor.ListText | SDGsAction.py:127-154 | the Region and Countries lookups before cleaning: `'-'` without the heading or container, otherwise the join-or-dash of the items; `ListRule` states it |
| Extractor.Lookups | SDGsAction.py:60-154 | the ten field lookups with their `'-'` fallbacks; `ExtractOfEmptyPage` and `ExtractFieldsIndependent` state it as a whole, and `TitleRule`, `InitiatorAndActionId`, `TypeRule`, `TimelineRule`, `LocationRule`, `SdgsRule` and `ListRule` state it field by field |
| Extractor.CleanRecord | SDGsAction.py:159-168 | `clean_text` on every one of the ten fields; `ExtractNormalized` states that every field comes out normalized |
| Extractor.Extract | SDGsAction.py:60-168 | the record built from a fetched detail page: its lookups, then cleaned |
| Extractor.ProcessAction | SDGsAction.py:54-61 | an error exactly when the detail fetch gave no document (`None.find` raises); otherwise the extracted record |
| Extractor.ExtractNormalized | SDGsAction.py:159-168 | every one of the ten fields of an extracted record is normalized text |
| Extractor.ExtractFieldsIndependent | SDGsAction.py:60-154 | each field is determined by its own lookup alone: pages that agree on one lookup agree on its field |
| Extractor.ExtractOfEmptyPage | SDGsAction.py:60-154 | a detail page where every lookup fails gives `'-'` in all ten fields |
| Extractor.TitleRule | SDGsAction.py:61-62 | Title is `'-'` without the heading, otherwise its cleaned text |
| Extractor.InitiatorAndActionId | SDGsAction.py:65-72 | Initiator and ActionID are the first and second `<h6>` of the place block, cleaned, and `'-'` where the block or that `<h6>` is missing |
| Extractor.TypeRule | SDGsAction.py:79-88 | Type is `'-'` without the "Type of initiative" heading, its enclosing `div` or the content `div` inside it; otherwise the cleaned content text |
| Extractor.TimelineRule | SDGsAction.py:91-111 | without the Timeline heading or its content block, both dates are `'-'`; otherwise each date is the cleaned text of its own field |
| Extractor.LocationRule | SDGsAction.py:114-119 | GeographicalCoverage is `'-'` without the location `div` or its `field-content`; otherwise the cleaned text |
| Extractor.AnchorTextsAppend | SDGsAction.py:122-123 | the anchor texts of two runs of goal spans are those of each run, concatenated |
| Extractor.AnchorTextsEmpty | SDGsAction.py:122-123 | there are no anchor texts exactly when no span has an `<a>`; there are never more texts than spans |
| Extractor.AnchorTextsInOrder | SDGsAction.py:123 | a span with an `<a>` contributes its text at its own position, between those of the spans before and after it |
| Extractor.SdgsRule | SDGsAction.py:122-124 | SDGs is `'-'` when no goal span has an `<a>`, otherwise the cleaned comma-join of their texts |
| Extractor.ListRule | SDGsAction.py:127-154 | Region and Countries are `'-'` without the heading, the container or any item, otherwise the cleaned comma-join of the items |
| Extractor.RegionKeepsEmptyItem | SDGsAction.py:128-135 | a Region list whose only item has empty text is stored as the empty string, not `'-'` |
| Extractor.CountriesKeepsEmptyItem | SDGsAction.py:143-150 | the same for Countries: a list whose only item has empty text is stored as the empty string |
| Scraper.ResultsFile.constructor | SDGsAction.py:213-217 | the file starts missing or with the given rows, and with no saves |
| Scraper.ResultsFile.Load | SDGsAction.py:213-217 | the rows of the file, or an empty table when it does not exist |
| Scraper.ResultsFile.Save | SDGsAction.py:243 | the file now holds exactly the table written, and the save is logged for its page |
| Scraper.PageRange | SDGsAction.py:205 | `range(start, end+1)`: `last - first + 1` pages (none when `first > last`), the k-th being `first + k` |
| Scraper.ConfiguredRange | SDGsAction.py:201-205 | `main` scans 22 pages, from 429 to 450 |
| Scraper.ProcessActionUrl | SDGsAction.py:54-56 | fetches the detail page and gives the record of `ProcessAction`; an error exactly when the fetch gave nothing |
| Scraper.LinkStep | SDGsAction.py:231-239 | the rows one listing row adds: none when the URL is missing or empty or processing raises, otherwise one stamped record |
| Scraper.AppendPageRows | SDGsAction.py:230-239 | the table after the row loop is the loaded table followed by the rows of every listing row, in order |
| Scraper.ScanPage | SDGsAction.py:206-243 | one page: it stops exactly when its step stops, with that end and the file unchanged; otherwise the file holds the old rows plus the page's rows and the save is logged |
| Scraper.RunPages | SDGsAction.py:205-243 | the loop over pages: the end, the pages saved and the file contents are those of the specification run |
| Scraper.ScanRange | SDGsAction.py:195-243 | `main` over `first..last`: the end, the saves and the file are those of `RunSpec` in range-scan mode |
| Scraper.ScanList | SDGsAction.py:256-292 | the patch cell over a page list: the end, the saves and the file are those of `RunSpec` in patch mode |
| Scraper.ScanConfiguredRange | SDGsAction.py:195-205 | `main` with its constants 429 and 450 |
| Scraper.ScanLeftPages | SDGsAction.py:254-256 | the patch cell with its pages 234, 245 and 428 |
| Scraper.LinkRows | SDGsAction.py:231-239 | the rows one listing row adds: none for a missing or empty URL or when processing raises, otherwise one row stamped with the page; `LinkRowsStamped`, `FailedDetailAddsNothing` and `ResolvedLinkAddsRecord` state it |
| Scraper.RowsOf | SDGsAction.py:230-239 | the rows a run of listing rows adds, in order, given what each row adds; `RowsOfAppend` states it is compositional |
| Scraper.PageRows | SDGsAction.py:230-239 | the rows a listing page adds; `PageRowsStamped`, `PageRowsOne`, `DropEmptyLink` and `TwoRowPage` state it |
| Scraper.PageStep | SDGsAction.py:206-243 | one page of either loop (the patch cell repeats it at SDGsAction.py:258-292): the run ends without a listing document or view block, otherwise the page's rows are saved; `PageStepStops` states when and how it stops |
| Scraper.RunOf | SDGsAction.py:205-243 | the run over a page list, page by page, stopping at the first page whose step stops; `RunOfShape` characterizes it for any page steps |
| Scraper.RunSpec | SDGsAction.py:205-243 | the run of `main` or the patch cell over a page list; `RunShape`, `FailedListingStopsRun`, `ModesAgree` and `AddedRowsStamped` state its properties |
| Scraper.RowsOfAppend | SDGsAction.py:230-236 | the rows added by a run of listing rows split at any point are those of each part, concatenated |
| Scraper.PageRowsAppend | SDGsAction.py:230-236 | the same for the rows a listing page adds |
| Scraper.PageRowsStamped | SDGsAction.py:230-236 | a page adds at most one row per listing row, and every row it adds carries its page number |
| Scraper.LinkRowsStamped | SDGsAction.py:231-236 | one listing row adds at most one row, stamped with the page number |
| Scraper.FailedDetailAddsNothing | SDGsAction.py:56-61 | a link whose detail fetch gives nothing adds no row: the error is caught and the link skipped |
| Scraper.PageRowsOne | SDGsAction.py:230-236 | a page with one listing row adds what that row adds |
| Scraper.DropEmptyLink | SDGsAction.py:232-239 | a listing row that adds nothing can be dropped without changing what the page adds |
| Scraper.ResolvedLinkAddsRecord | SDGsAction.py:231-236 | a resolved, non-empty link whose detail page is fetched adds exactly one row: its page number and the extracted record |
| Scraper.TwoRowPage | SDGsAction.py:230-236 | two resolvable links add their two records in listing order |
| Scraper.RunOfShape | SDGsAction.py:205-243 | for any page steps: the saved pages are a prefix of the list, each of them saved by its step; the run finishes exactly when all are saved, and otherwise ends as the next page's step does; the rows added are those of the saved pages |
| Scraper.PageStepStops | SDGsAction.py:208-228 | a page ends the run exactly when its listing document or its view block is missing, and with which end in each mode |
| Scraper.RunShape | SDGsAction.py:205-243 | the run finishes exactly when every page is saved; every saved page had a listing document and a view block; otherwise the next page names the reason |
| Scraper.FailedListingStopsRun | SDGsAction.py:208-210 | a page whose listing fetch fails is never saved, nor is any page after it, and the run does not finish |
| Scraper.ModesAgree | SDGsAction.py:256-292 | on the same pages, the two modes save the same pages and rows and end at the same page for the same reason; the only difference is that `main` returns cleanly exactly where the patch cell crashes on a missing listing |
| Scraper.AddedRowsStamped | SDGsAction.py:235 | every row added by a run carries the number of one of the pages scanned |

## Left out

- HTTP and the sleeps with random jitter are not modelled. Each URL instead comes with the outcomes of its attempts in the `Web` value.
- An attempt beyond the outcomes supplied counts as a transport error.
- `print` calls and their messages are not modelled. They do not affect the result.
- HTML parsing is not modelled: BeautifulSoup's `find`, `find_all`, `find_parent` and
  `find_next_sibling`, and `get_text(strip=True)`. A page is given as the results of its
  lookups.
- `urljoin` is not modelled. It is the abstract `join` of `Web`, and is taken to be total
  (it never raises).
- The spreadsheet I/O by pandas is not modelled.
  - A load is taken to give back exactly the rows last saved. The model does not follow
    `read_excel`'s conversions: empty cells becoming NaN, numeric-looking text becoming a
    number.
  - The column order of the header is not modelled.
  - A corrupt or unreadable results file is not modelled.
- The deduplication on ActionID and the `if not detail_soup` guard are commented out in
  the source (SDGsAction.py:57-58 and 74-76), so they are not modelled.
- Running both drivers one after another as a script is not modelled. The patch cell is
  modelled as its own run, over whatever file it finds.
- Scraper.ResultsFile.Save: it logs the page through a ghost parameter. That log is a
  proof device, not part of the file.
