/**
 The retained-event search contract of a terminal: which search request may be
 sent and which decoded answer counts as one page (internal/accesscontrol/retained.go).
 Decoding JSON and XML is not modelled; answers arrive as parsed documents.
 */
module RetainedSearch {
  import opened Wrappers

  const PAGE_SIZE := 30
  const MAX_MATCHES := 150000

  /** An instant, and the instant at which the year 2000 began in the location it is expressed in. */
  datatype LocalTime = LocalTime(instant: int, year2000: int)

  datatype SearchCondition = SearchCondition(searchId: string, position: nat, startsAt: int, endsAt: int)

  function NewSearchRequest(searchId: string, position: int, terminalNow: LocalTime): Option<SearchCondition> {
    if searchId == "" || |searchId| > 64 then None
    else if position < 0 || position > MAX_MATCHES then None
    else if terminalNow.instant <= terminalNow.year2000 then None
    else Some(SearchCondition(searchId, position, terminalNow.year2000, terminalNow.instant))
  }

  /** The declared projection of one record; `None` in a RawRecord means that it is undocumented. */
  datatype Projection = Projection(major: int, minor: int, occurredAt: int,
                                   employee: Option<string>, name: Option<string>, serial: Option<int>)

  datatype RawRecord = RawRecord(source: string, projection: Option<Projection>)

  datatype PageStatus = More | Done | NoMatch

  /** The AcsEvent document as decoded, before any of its pagination fields is checked. */
  datatype PageDocument = PageDocument(searchId: Option<string>, status: Option<string>,
                                       numOfMatches: Option<int>, totalMatches: Option<int>, info: seq<RawRecord>)

  datatype Page = Page(searchId: string, status: PageStatus, numOfMatches: nat, totalMatches: nat, info: seq<RawRecord>)

  function ParsePageStatus(text: string): Option<PageStatus> {
    if text == "MORE" then Some(More)
    else if text == "OK" then Some(Done)
    else if text == "NO MATCH" then Some(NoMatch)
    else None
  }

  /** A page carries exactly the records it counts, at most a page of them, within the archive limit. */
  predicate PageOk(page: Page) {
    && 1 <= |page.searchId| <= 64
    && |page.info| == page.numOfMatches <= PAGE_SIZE
    && page.totalMatches <= MAX_MATCHES
    && (page.status.NoMatch? ==> page.totalMatches == 0 && page.info == [])
  }

  function ParsePage(document: Option<PageDocument>): (page: Option<Page>)
    ensures page.Some? ==> PageOk(page.value)
  {
    if document.None? then None
    else
      var d := document.value;
      if d.searchId.None? || d.status.None? || d.numOfMatches.None? || d.totalMatches.None? then None
      else if d.searchId.value == "" || |d.searchId.value| > 64 then None
      else if d.numOfMatches.value < 0 || d.numOfMatches.value > PAGE_SIZE
              || d.totalMatches.value < 0 || d.totalMatches.value > MAX_MATCHES then None
      else
        var status := ParsePageStatus(d.status.value);
        if status.None? then None
        else if status.value.NoMatch?
                && (d.numOfMatches.value != 0 || d.totalMatches.value != 0 || d.info != []) then None
        else if !status.value.NoMatch? && d.numOfMatches.value != |d.info| then None
        else Some(Page(d.searchId.value, status.value, d.numOfMatches.value, d.totalMatches.value, d.info))
  }

  function StatusText(status: PageStatus): string {
    match status case More => "MORE" case Done => "OK" case NoMatch => "NO MATCH"
  }

  /** The document that spells out a page. */
  function DocumentOf(page: Page): PageDocument {
    PageDocument(Some(page.searchId), Some(StatusText(page.status)), Some(page.numOfMatches), Some(page.totalMatches),
                 page.info)
  }

  /** A page is read from a document exactly when the document spells it out and the page is in order. */
  lemma ParsePageExact(document: Option<PageDocument>, page: Page)
    ensures ParsePage(document) == Some(page) <==> document == Some(DocumentOf(page)) && PageOk(page)
  {
    assert "MORE" != "OK" && "MORE" != "NO MATCH" && "OK" != "NO MATCH" by {
      assert |"MORE"| == 4 && |"OK"| == 2 && |"NO MATCH"| == 8;
    }
    assert ParsePageStatus(StatusText(page.status)) == Some(page.status);
  }
}
