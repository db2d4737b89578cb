/** The record extractor `process_action_url` (SDGsAction.py:54-188). The parsed detail
    page is given by the results of the lookups the extractor makes on it. */
module Extractor {
  import opened Options
  import opened TextClean

  /** An element found on the page whose one nested text lookup (a `div.field-content`
      or `div.content`) may find nothing. */
  datatype TextHolder = TextHolder(text: Option<string>)

  /** The `h5` "Type of initiative": its enclosing `div` may be missing. */
  datatype TypeHeading = TypeHeading(parentDiv: Option<TextHolder>)

  /** The `div.content` after the "Timeline" heading, with its start-date and
      completion-date blocks. */
  datatype TimelineBlock = TimelineBlock(startDate: Option<TextHolder>, completionDate: Option<TextHolder>)

  /** The `h5` "Timeline": its next-sibling `div.content` may be missing. */
  datatype TimelineHeading = TimelineHeading(block: Option<TimelineBlock>)

  /** The `h5` "Region" or "Countries": its next-sibling container may be missing, and
      holds the texts of its items (`li.list-group-item` or `span.field-content`). */
  datatype ListHeading = ListHeading(items: Option<seq<string>>)

  /** A detail page, seen through the lookups `process_action_url` makes on it. Every
      text is what `get_text(strip=True)` returns for the element found. */
  datatype DetailPage = DetailPage(
    title: Option<string>,                // h1.separator-bottom.mt-5
    place: Option<seq<string>>,           // div.place and the texts of its h6 tags
    typeHeading: Option<TypeHeading>,     // h5 "Type of initiative"
    timeline: Option<TimelineHeading>,    // h5 "Timeline"
    location: Option<TextHolder>,         // div.views-field-field-location
    goalWrappers: seq<Option<string>>,    // span.good-practices-goal-wrapper, text of its a
    region: Option<ListHeading>,          // h5 "Region"
    countries: Option<ListHeading>)       // h5 "Countries"

  /** The ten text columns of one output row. */
  datatype Record = Record(
    title: string,
    initiator: string,
    actionId: string,
    typeOfInitiative: string,
    startTime: string,
    endTime: string,
    countries: string,
    region: string,
    geographicalCoverage: string,
    sdgs: string)

  /** Why processing one detail link raised. */
  datatype ExtractError = NoDetailDocument

  function Fields(r: Record): seq<string> {
    [r.title, r.initiator, r.actionId, r.typeOfInitiative, r.startTime, r.endTime,
     r.countries, r.region, r.geographicalCoverage, r.sdgs]
  }

  /** The text of a holder, or the sentinel when the holder or its text is missing. */
  function HolderText(h: Option<TextHolder>): string {
    match h
    case None => Missing
    case Some(holder) => if holder.text.Some? then holder.text.value else Missing
  }

  /** The texts of the goal spans that hold an anchor, in document order; spans without
      one are skipped (SDGsAction.py:123). */
  function AnchorTexts(spans: seq<Option<string>>): seq<string> {
    if spans == [] then []
    else (if spans[0].Some? then [spans[0].value] else []) + AnchorTexts(spans[1..])
  }

  /** The Region and Countries rule: a missing heading or container gives the sentinel,
      otherwise the comma-join of the item texts (the sentinel when there are none). */
  function ListText(h: Option<ListHeading>): string {
    match h
    case None => Missing
    case Some(heading) =>
      match heading.items
      case None => Missing
      case Some(items) => JoinOrDash(items)
  }

  /** The field lookups and fallbacks of `process_action_url` (SDGsAction.py:60-154) on a
      detail page that was fetched: the column values before they are cleaned. */
  function Lookups(d: DetailPage): Record {
    var title := if d.title.Some? then d.title.value else Missing;
    var initiator :=
      if d.place.Some? then (if |d.place.value| > 0 then d.place.value[0] else Missing)
      else Missing;
    var actionId :=
      if d.place.Some? then (if |d.place.value| > 1 then d.place.value[1] else Missing)
      else Missing;
    var typeOfInitiative :=
      match d.typeHeading
      case None => Missing
      case Some(h) => HolderText(h.parentDiv);
    var startTime :=
      match d.timeline
      case None => Missing
      case Some(h) => if h.block.Some? then HolderText(h.block.value.startDate) else Missing;
    var endTime :=
      match d.timeline
      case None => Missing
      case Some(h) => if h.block.Some? then HolderText(h.block.value.completionDate) else Missing;
    var geographicalCoverage := HolderText(d.location);
    var sdgs := JoinOrDash(AnchorTexts(d.goalWrappers));
    var region := ListText(d.region);
    var countries := ListText(d.countries);
    Record(title, initiator, actionId, typeOfInitiative, startTime, endTime,
           countries, region, geographicalCoverage, sdgs)
  }

  /** `clean_text` applied to every column (SDGsAction.py:159-168). */
  function CleanRecord(r: Record): Record {
    Record(
      CleanText(r.title), CleanText(r.initiator), CleanText(r.actionId),
      CleanText(r.typeOfInitiative), CleanText(r.startTime), CleanText(r.endTime),
      CleanText(r.countries), CleanText(r.region), CleanText(r.geographicalCoverage),
      CleanText(r.sdgs))
  }

  /** The record `process_action_url` builds from a fetched detail page. */
  function Extract(d: DetailPage): Record {
    CleanRecord(Lookups(d))
  }

  /** `process_action_url`: without a detail document the first lookup raises
      (`None.find`); otherwise the record is extracted. */
  function ProcessAction(detail: Option<DetailPage>): (r: Result<Record, ExtractError>)
    ensures r.Err? <==> detail.None?
    ensures detail.Some? ==> r == Ok(Extract(detail.value))
  {
    match detail
    case None => Err(NoDetailDocument)
    case Some(d) => Ok(Extract(d))
  }

  // ---------------------------------------------------------------------------
  // Properties
  // ---------------------------------------------------------------------------

  /** Every column of an extracted record is normalized text. */
  lemma ExtractNormalized(d: DetailPage)
    ensures var r := Extract(d);
      Normalized(r.title) && Normalized(r.initiator) && Normalized(r.actionId)
      && Normalized(r.typeOfInitiative) && Normalized(r.startTime) && Normalized(r.endTime)
      && Normalized(r.countries) && Normalized(r.region) && Normalized(r.geographicalCoverage)
      && Normalized(r.sdgs)
  {
    var l := Lookups(d);
    CleanTextNormalized(l.title);
    CleanTextNormalized(l.initiator);
    CleanTextNormalized(l.actionId);
    CleanTextNormalized(l.typeOfInitiative);
    CleanTextNormalized(l.startTime);
    CleanTextNormalized(l.endTime);
    CleanTextNormalized(l.countries);
    CleanTextNormalized(l.region);
    CleanTextNormalized(l.geographicalCoverage);
    CleanTextNormalized(l.sdgs);
  }

  /** Each column is computed from its own lookup only: two pages that agree on the
      lookups behind a column give the same value in that column, whatever else differs. */
  lemma ExtractFieldsIndependent(d1: DetailPage, d2: DetailPage)
    ensures d1.title == d2.title ==> Extract(d1).title == Extract(d2).title
    ensures d1.place == d2.place ==>
      Extract(d1).initiator == Extract(d2).initiator && Extract(d1).actionId == Extract(d2).actionId
    ensures d1.typeHeading == d2.typeHeading ==>
      Extract(d1).typeOfInitiative == Extract(d2).typeOfInitiative
    ensures d1.timeline == d2.timeline ==>
      Extract(d1).startTime == Extract(d2).startTime && Extract(d1).endTime == Extract(d2).endTime
    ensures d1.location == d2.location ==>
      Extract(d1).geographicalCoverage == Extract(d2).geographicalCoverage
    ensures d1.goalWrappers == d2.goalWrappers ==> Extract(d1).sdgs == Extract(d2).sdgs
    ensures d1.region == d2.region ==> Extract(d1).region == Extract(d2).region
    ensures d1.countries == d2.countries ==> Extract(d1).countries == Extract(d2).countries
  {
  }

  /** A page on which no lookup finds anything gives the sentinel in every column. */
  lemma ExtractOfEmptyPage()
    ensures var r := Extract(DetailPage(None, None, None, None, None, [], None, None));
      forall k :: 0 <= k < |Fields(r)| ==> Fields(r)[k] == Missing
  {
    assert Missing == "-" + [];
    CleanTextOfWord(Missing);
  }

  /** The title is the cleaned heading text, or the sentinel when the heading is missing. */
  lemma TitleRule(d: DetailPage)
    ensures d.title.None? ==> Extract(d).title == Missing
    ensures d.title.Some? ==> Extract(d).title == CleanText(d.title.value)
  {
    CleanTextOfWord(Missing);
  }

  /** Initiator is the first h6 text of the place block and ActionID the second; each one
      that is not there, and both when the block is missing, is the sentinel. */
  lemma InitiatorAndActionId(d: DetailPage)
    ensures d.place.None? ==> Extract(d).initiator == Missing && Extract(d).actionId == Missing
    ensures d.place.Some? ==>
      var h6 := d.place.value;
      Extract(d).initiator == (if |h6| >= 1 then CleanText(h6[0]) else Missing)
      && Extract(d).actionId == (if |h6| >= 2 then CleanText(h6[1]) else Missing)
  {
    CleanTextOfWord(Missing);
  }

  /** The start and completion dates fall back to the sentinel independently of each other. */
  lemma TimelineRule(d: DetailPage)
    ensures d.timeline.None? || d.timeline.value.block.None? ==>
      Extract(d).startTime == Missing && Extract(d).endTime == Missing
    ensures d.timeline.Some? && d.timeline.value.block.Some? ==>
      var b := d.timeline.value.block.value;
      Extract(d).startTime == CleanText(HolderText(b.startDate))
      && Extract(d).endTime == CleanText(HolderText(b.completionDate))
  {
    CleanTextOfWord(Missing);
  }

  /** Type of initiative: the sentinel without the heading, its enclosing `div` or the
      `div.content` inside it (SDGsAction.py:79-88), otherwise the cleaned content text. */
  lemma TypeRule(d: DetailPage)
    ensures (d.typeHeading.None? || d.typeHeading.value.parentDiv.None?
             || d.typeHeading.value.parentDiv.value.text.None?) ==>
      Extract(d).typeOfInitiative == Missing
    ensures (d.typeHeading.Some? && d.typeHeading.value.parentDiv.Some?
             && d.typeHeading.value.parentDiv.value.text.Some?) ==>
      Extract(d).typeOfInitiative == CleanText(d.typeHeading.value.parentDiv.value.text.value)
  {
    CleanTextOfWord(Missing);
  }

  /** Geographical coverage: the sentinel without the location `div` or the
      `div.field-content` inside it (SDGsAction.py:114-119), otherwise the cleaned text. */
  lemma LocationRule(d: DetailPage)
    ensures d.location.None? || d.location.value.text.None? ==>
      Extract(d).geographicalCoverage == Missing
    ensures d.location.Some? && d.location.value.text.Some? ==>
      Extract(d).geographicalCoverage == CleanText(d.location.value.text.value)
  {
    CleanTextOfWord(Missing);
  }

  lemma {:induction false} AnchorTextsAppend(a: seq<Option<string>>, b: seq<Option<string>>)
    ensures AnchorTexts(a + b) == AnchorTexts(a) + AnchorTexts(b)
  {
    if a == [] {
      assert a + b == b;
    } else {
      assert (a + b)[1..] == a[1..] + b;
      AnchorTextsAppend(a[1..], b);
    }
  }

  /** The SDG texts are the anchor texts of the goal wrappers that have an anchor: none
      of them exactly when no wrapper has an anchor, and never more than there are
      wrappers. */
  lemma {:induction false} AnchorTextsEmpty(spans: seq<Option<string>>)
    ensures AnchorTexts(spans) == [] <==> forall i :: 0 <= i < |spans| ==> spans[i].None?
    ensures |AnchorTexts(spans)| <= |spans|
  {
    if spans != [] {
      AnchorTextsEmpty(spans[1..]);
      assert forall i :: 1 <= i < |spans| ==> spans[i] == spans[1..][i - 1];
    }
  }

  /** Document order: each anchored wrapper contributes its text between the texts of the
      wrappers before it and those after it. */
  lemma AnchorTextsInOrder(spans: seq<Option<string>>, i: nat)
    requires i < |spans| && spans[i].Some?
    ensures AnchorTexts(spans) == AnchorTexts(spans[..i]) + [spans[i].value] + AnchorTexts(spans[i + 1..])
  {
    assert spans == spans[..i] + ([spans[i]] + spans[i + 1..]);
    AnchorTextsAppend(spans[..i], [spans[i]] + spans[i + 1..]);
    AnchorTextsAppend([spans[i]], spans[i + 1..]);
    assert AnchorTexts([spans[i]]) == [spans[i].value] + AnchorTexts([]);
  }

  /** SDGs: the sentinel when no goal wrapper has an anchor, otherwise the cleaned
      comma-join of the anchor texts; wrappers without an anchor are dropped. */
  lemma SdgsRule(d: DetailPage)
    ensures AnchorTexts(d.goalWrappers) == [] ==> Extract(d).sdgs == Missing
    ensures AnchorTexts(d.goalWrappers) != [] ==>
      Extract(d).sdgs == CleanText(Join(",", AnchorTexts(d.goalWrappers)))
  {
    CleanTextOfWord(Missing);
  }

  /** Region and Countries: the sentinel for a missing heading, a missing container or no
      items, otherwise the cleaned comma-join of all item texts, empty ones included. */
  lemma ListRule(h: Option<ListHeading>)
    ensures h.None? || h.value.items.None? || h.value.items.value == [] ==>
      CleanText(ListText(h)) == Missing
    ensures h.Some? && h.value.items.Some? && h.value.items.value != [] ==>
      CleanText(ListText(h)) == CleanText(Join(",", h.value.items.value))
  {
    CleanTextOfWord(Missing);
  }

  /** Unlike SDGs, Region does not drop empty items: a single empty item gives the empty
      string, not the sentinel (SDGsAction.py:133-135). */
  lemma RegionKeepsEmptyItem(d: DetailPage)
    requires d.region == Some(ListHeading(Some([""])))
    ensures Extract(d).region == ""
  {
    CleanTextEmptyIffAllSpace("");
  }

  /** Countries keeps empty items in the same way (SDGsAction.py:148-150). */
  lemma CountriesKeepsEmptyItem(d: DetailPage)
    requires d.countries == Some(ListHeading(Some([""])))
    ensures Extract(d).countries == ""
  {
    CleanTextEmptyIffAllSpace("");
  }
}
