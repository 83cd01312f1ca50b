/** What the OCD image scraper builds from the pages it fetches: the search
    field set, the postback request for the next results page, the record
    dicts of a page, the records of a whole crawl, and the CSV rows.  The
    class in `OcdScraper` runs these with loops and is proved to agree. */
module OcdExtract {
  import opened Wrappers
  import opened Html
  import opened Http
  import opened FormState
  import opened Collect
  import opened OcdPostBack

  const BaseUrl := "http://ocdimage.emnrd.state.nm.us/imaging/CaseFileCriteria.aspx"

  const EventTarget := "__EVENTTARGET"
  const EventArgument := "__EVENTARGUMENT"
  const CaseTypeKey := "ctl00$main$ddlCaseType"
  const CriteriaKey := "ctl00$main$FilingDate$DateCriteriaList1$ddlCriteria"
  const DateKey := "ctl00$main$FilingDate$txtDate"
  const ClearKey := "ctl00$main$btnClearAll"
  const GoBackKey := "ctl00$main$btnGoBack"
  const CaseNoKey := "ctl00$main$btnCaseNo"
  const ReturnKey := "ctl00$main$CaseFileList1$btnReturn"

  /** A fetched page, reduced to what the selectors find: `form#form1`, the
      anchors of `div#pnlList > table` in document order, and `a#Next`. */
  datatype OcdPage = OcdPage(form: Option<HtmlForm>, listAnchors: seq<Anchor>, next: Option<Anchor>)

  type OcdServer = HttpRequest -> OcdPage

  /** A record dict; `csv_save` reads it with `d.get(k, '')`. */
  type Dict = map<string, string>

  /** `form.find_all(...)` when `select_one('form#form1')` found no form. */
  const NoForm := AttributeError("'NoneType' object has no attribute 'find_all'")

  /** `tr.find_all('td')` when `a.find_parent('tr')` found no row. */
  const NoRow := AttributeError("'NoneType' object has no attribute 'find_all'")

  // ---------------------------------------------------------------------
  // submit_search

  /** The dict before the deletions: the two event fields set to None, every
      named input then every named select, then the three criteria. */
  function SearchData(form: HtmlForm, filingDate: string): Fields {
    var start: Fields := map[EventTarget := None, EventArgument := None];
    Harvest(Harvest(start, form.inputs, false), form.selects, false)
      [CaseTypeKey := Some("CP")][CriteriaKey := Some("GreaterThan")][DateKey := Some(filingDate)]
  }

  /** The field set `submit_search` posts: the three button keys are deleted
      in turn, and the first one missing raises KeyError. */
  function SearchFields(form: HtmlForm, filingDate: string): Result<Fields> {
    var data := SearchData(form, filingDate);
    if ClearKey !in data then Err(KeyError(ClearKey))
    else if GoBackKey !in data then Err(KeyError(GoBackKey))
    else if CaseNoKey !in data then Err(KeyError(CaseNoKey))
    else Ok(data - {ClearKey, GoBackKey, CaseNoKey})
  }

  /** The request `submit_search` sends, given the criteria page. */
  function SearchRequest(page: OcdPage, filingDate: string): Result<HttpRequest> {
    match page.form
    case None => Err(NoForm)
    case Some(form) =>
      match SearchFields(form, filingDate)
      case Err(e) => Err(e)
      case Ok(data) => Ok(Post(BaseUrl, data))
  }

  /** The names the harvest stores from a form. */
  function FormNames(form: HtmlForm): set<string> {
    SentNames(form.inputs, false) + SentNames(form.selects, false)
  }

  lemma SearchDataKeys(form: HtmlForm, filingDate: string)
    ensures SearchData(form, filingDate).Keys
         == {EventTarget, EventArgument} + FormNames(form) + {CaseTypeKey, CriteriaKey, DateKey}
  {
    var start: Fields := map[EventTarget := None, EventArgument := None];
    HarvestKeys(start, form.inputs, false);
    HarvestKeys(Harvest(start, form.inputs, false), form.selects, false);
  }

  /** The search is built exactly when the form names all three buttons, and
      it then holds the event fields, the harvested names and the criteria,
      without the three buttons; the criteria carry `CP`, `GreaterThan` and
      the filing date.  Otherwise the first missing button is the error. */
  lemma SearchFieldsSpec(form: HtmlForm, filingDate: string)
    ensures var names := FormNames(form);
      && (SearchFields(form, filingDate).Ok? <==> ClearKey in names && GoBackKey in names && CaseNoKey in names)
      && (ClearKey !in names ==> SearchFields(form, filingDate) == Err(KeyError(ClearKey)))
      && (ClearKey in names && GoBackKey !in names ==> SearchFields(form, filingDate) == Err(KeyError(GoBackKey)))
      && (ClearKey in names && GoBackKey in names && CaseNoKey !in names ==>
            SearchFields(form, filingDate) == Err(KeyError(CaseNoKey)))
      && (SearchFields(form, filingDate).Ok? ==>
            var d := SearchFields(form, filingDate).value;
            && d.Keys == ({EventTarget, EventArgument} + names + {CaseTypeKey, CriteriaKey, DateKey})
                         - {ClearKey, GoBackKey, CaseNoKey}
            && d[CaseTypeKey] == Some("CP")
            && d[CriteriaKey] == Some("GreaterThan")
            && d[DateKey] == Some(filingDate))
  {
    SearchDataKeys(form, filingDate);
  }

  /** The event fields stay None unless some named control of the form
      carries that name. */
  lemma SearchEventFieldsDefault(form: HtmlForm, filingDate: string, k: string)
    requires k == EventTarget || k == EventArgument
    requires SearchFields(form, filingDate).Ok?
    requires k !in FormNames(form)
    ensures k in SearchFields(form, filingDate).value && SearchFields(form, filingDate).value[k] == None
  {
    var start: Fields := map[EventTarget := None, EventArgument := None];
    var first := Harvest(start, form.inputs, false);
    SearchDataKeys(form, filingDate);
    forall j | 0 <= j < |form.inputs| && Sent(form.inputs[j], false) ensures form.inputs[j].name.value != k {
      assert form.inputs[j].name.value in SentNames(form.inputs, false);
    }
    HarvestUntouched(start, form.inputs, false, k);
    forall j | 0 <= j < |form.selects| && Sent(form.selects[j], false) ensures form.selects[j].name.value != k {
      assert form.selects[j].name.value in SentNames(form.selects, false);
    }
    HarvestUntouched(first, form.selects, false, k);
  }

  // ---------------------------------------------------------------------
  // goto_next_page

  /** The request `goto_next_page` sends: None when there is no Next anchor,
      otherwise a postback of the named inputs (selects are not replayed)
      with the target taken from the anchor's href.  `btnReturn` is deleted
      before Next is looked for, so its absence fails even on the last page;
      an href that does not match the pattern fails too (`m.group` on None). */
  function NextRequest(page: OcdPage): Result<Option<HttpRequest>> {
    match page.form
    case None => Err(NoForm)
    case Some(form) =>
      var data := Harvest(map[], form.inputs, false);
      if ReturnKey !in data then Err(KeyError(ReturnKey))
      else
        match page.next
        case None => Ok(None)
        case Some(a) =>
          match a.href
          case None => Err(KeyError("href"))
          case Some(href) =>
            match PostBackTarget(href)
            case None => Err(AttributeError("'NoneType' object has no attribute 'group'"))
            case Some(t) =>
              Ok(Some(Post(BaseUrl, (data - {ReturnKey})[EventTarget := Some(t)][EventArgument := None])))
  }

  /** Pagination ends exactly on a page with a form naming `btnReturn` and
      no Next anchor. */
  lemma NextRequestEnds(page: OcdPage)
    ensures NextRequest(page) == Ok(None) <==>
      page.form.Some? && ReturnKey in SentNames(page.form.value.inputs, false) && page.next.None?
  {
    if page.form.Some? {
      HarvestKeys(map[], page.form.value.inputs, false);
    }
  }

  /** A Next anchor whose href holds `__doPostBack('T','')` (no quote before
      it, `T` non-empty and quote-free) posts back the named inputs without
      `btnReturn`, with `__EVENTTARGET` = `T` and `__EVENTARGUMENT` = None. */
  lemma NextRequestPostBack(form: HtmlForm, a: Anchor, listAnchors: seq<Anchor>, pre: string, t: string, post: string)
    requires ReturnKey in SentNames(form.inputs, false)
    requires a.href == Some(pre + PostBackCall(t) + post)
    requires QuoteFree(pre) && t != [] && QuoteFree(t)
    ensures var r := NextRequest(OcdPage(Some(form), listAnchors, Some(a)));
      && r.Ok? && r.value.Some? && r.value.value.Post? && r.value.value.url == BaseUrl
      && r.value.value.form.Keys == SentNames(form.inputs, false) - {ReturnKey} + {EventTarget, EventArgument}
      && r.value.value.form[EventTarget] == Some(t)
      && r.value.value.form[EventArgument] == None
  {
    HarvestKeys(map[], form.inputs, false);
    PostBackRoundTrip(pre, t, post);
  }

  /** The next-page request replays inputs only: the name of a select that
      no input and neither event field carries is not posted. */
  lemma NextRequestOmitsSelects(page: OcdPage, k: string)
    requires page.form.Some?
    requires NextRequest(page).Ok? && NextRequest(page).value.Some?
    requires k !in SentNames(page.form.value.inputs, false) && k != EventTarget && k != EventArgument
    ensures k !in NextRequest(page).value.value.form
  {
    HarvestKeys(map[], page.form.value.inputs, false);
  }

  /** A Next href the pattern does not match is an error, not the end of
      pagination. */
  lemma NextRequestUnmatched(form: HtmlForm, a: Anchor, listAnchors: seq<Anchor>)
    requires ReturnKey in SentNames(form.inputs, false)
    requires a.href.Some? && PostBackTarget(a.href.value).None?
    ensures NextRequest(OcdPage(Some(form), listAnchors, Some(a))).Err?
  {
    HarvestKeys(map[], form.inputs, false);
  }

  // ---------------------------------------------------------------------
  // get_records

  /** One row: the URL is the anchor's href joined to `self.url`, and the four
      cells are taken as they are, without stripping. */
  function RecordOf(a: Anchor, join: UrlJoin): Result<Dict> {
    match a.row
    case None => Err(NoRow)
    case Some(cells) =>
      match a.href
      case None => Err(KeyError("href"))
      case Some(href) =>
        if |cells| < 4 then Err(IndexError("list index out of range"))
        else Ok(map[
          "url" := join(BaseUrl, href),
          "case-number" := cells[0],
          "case-type" := cells[1],
          "applicant" := cells[2],
          "filing-date" := cells[3]])
  }

  /** A row is read exactly when it has an href and at least four cells, and
      its dict then has the five keys: the joined URL and the first four
      cells, unstripped. */
  lemma RecordFields(a: Anchor, join: UrlJoin)
    ensures RecordOf(a, join).Ok? <==> a.row.Some? && a.href.Some? && |a.row.value| >= 4
    ensures RecordOf(a, join).Ok? ==>
      var d := RecordOf(a, join).value;
      var cells := a.row.value;
      && d.Keys == {"url", "case-number", "case-type", "applicant", "filing-date"}
      && d["url"] == join(BaseUrl, a.href.value)
      && d["case-number"] == cells[0] && d["case-type"] == cells[1]
      && d["applicant"] == cells[2] && d["filing-date"] == cells[3]
  {
  }

  function RecordReader(join: UrlJoin): Anchor -> Result<Dict> {
    a => RecordOf(a, join)
  }

  /** The records of a crawl that starts with `acc` collected and requests
      `req` next; None when more than `fuel` pages would be needed. */
  function Crawl(acc: seq<Dict>, req: HttpRequest, server: OcdServer, join: UrlJoin, fuel: nat): Option<Result<seq<Dict>>>
    decreases fuel
  {
    if fuel == 0 then None
    else
      var page := server(req);
      var c := CollectAll(acc, page.listAnchors, RecordReader(join));
      match c.outcome
      case Fail(e) => Some(Err(e))
      case Pass =>
        match NextRequest(page)
        case Err(e) => Some(Err(e))
        case Ok(None) => Some(Ok(c.items))
        case Ok(Some(next)) => Crawl(c.items, next, server, join, fuel - 1)
  }

  /** `get_records`: the search, then the pages it leads to. */
  function RecordsSpec(filingDate: string, server: OcdServer, join: UrlJoin, fuel: nat): Option<Result<seq<Dict>>> {
    match SearchRequest(server(Get(BaseUrl, map[])), filingDate)
    case Err(e) => Some(Err(e))
    case Ok(req) => Crawl([], req, server, join, fuel)
  }

  function PrependAll(acc: seq<Dict>, r: Option<Result<seq<Dict>>>): Option<Result<seq<Dict>>> {
    match r
    case Some(Ok(rs)) => Some(Ok(acc + rs))
    case _ => r
  }

  /** Records accumulate page by page in order: a crawl that has already
      collected `acc` ends with `acc` in front of what a fresh crawl from the
      same request collects. */
  lemma {:induction false} CrawlAccumulates(acc: seq<Dict>, req: HttpRequest, server: OcdServer, join: UrlJoin, fuel: nat)
    ensures Crawl(acc, req, server, join, fuel) == PrependAll(acc, Crawl([], req, server, join, fuel))
    decreases fuel
  {
    if fuel > 0 {
      var page := server(req);
      CollectAllAcc(acc, page.listAnchors, RecordReader(join));
      var c0 := CollectAll([], page.listAnchors, RecordReader(join));
      if c0.outcome == Pass {
        match NextRequest(page) {
          case Err(e) =>
          case Ok(None) =>
          case Ok(Some(next)) =>
            CrawlAccumulates(acc + c0.items, next, server, join, fuel - 1);
            CrawlAccumulates(c0.items, next, server, join, fuel - 1);
            match Crawl([], next, server, join, fuel - 1) {
              case None =>
              case Some(Err(e)) =>
              case Some(Ok(rs)) =>
                assert acc + c0.items + rs == acc + (c0.items + rs);
            }
        }
      }
    }
  }

  /** More fuel never changes a crawl that finished. */
  lemma {:induction false} CrawlFuel(acc: seq<Dict>, req: HttpRequest, server: OcdServer, join: UrlJoin, fuel: nat, more: nat)
    requires Crawl(acc, req, server, join, fuel).Some?
    requires fuel <= more
    ensures Crawl(acc, req, server, join, more) == Crawl(acc, req, server, join, fuel)
    decreases fuel
  {
    var page := server(req);
    var c := CollectAll(acc, page.listAnchors, RecordReader(join));
    if c.outcome == Pass {
      match NextRequest(page) {
        case Err(e) =>
        case Ok(None) =>
        case Ok(Some(next)) =>
          CrawlFuel(c.items, next, server, join, fuel - 1, more - 1);
      }
    }
  }

  /** A page's records: one per anchor, in order, after those collected
      before; the page fails as soon as one row cannot be read. */
  lemma PageRecordsSpec(acc: seq<Dict>, anchors: seq<Anchor>, join: UrlJoin)
    ensures var c := CollectAll(acc, anchors, RecordReader(join));
      && (c.outcome == Pass <==> forall i :: 0 <= i < |anchors| ==>
            anchors[i].row.Some? && anchors[i].href.Some? && |anchors[i].row.value| >= 4)
      && (c.outcome == Pass ==>
            |c.items| == |acc| + |anchors| && c.items[..|acc|] == acc
            && forall i :: 0 <= i < |anchors| ==> c.items[|acc| + i] == RecordOf(anchors[i], join).value)
  {
    var c := CollectAll(acc, anchors, RecordReader(join));
    CollectAllSpec(acc, anchors, RecordReader(join));
    CollectAllPasses(acc, anchors, RecordReader(join));
    forall i | 0 <= i < |anchors|
      ensures RecordReader(join)(anchors[i]).Ok? <==>
        anchors[i].row.Some? && anchors[i].href.Some? && |anchors[i].row.value| >= 4
    {
      RecordFields(anchors[i], join);
    }
    if c.outcome == Pass {
      assert FirstFailure(anchors, RecordReader(join)) == |anchors|;
      forall i | 0 <= i < |anchors|
        ensures c.items[|acc| + i] == RecordOf(anchors[i], join).value
      {
        assert RecordReader(join)(anchors[i]) == Ok(c.items[|acc| + i]);
        RecordFields(anchors[i], join);
      }
    }
  }

  // ---------------------------------------------------------------------
  // csv_save

  const Header := ["Case Number", "Case Type", "Applicant", "Filing Date", "URL"]

  /** The keys read for the columns, in the header's order. */
  const Columns := ["case-number", "case-type", "applicant", "filing-date", "url"]

  /** `d.get(k, '')` */
  function Lookup(d: Dict, k: string): string {
    if k in d then d[k] else ""
  }

  /** The row written for a record. */
  function Row(d: Dict): (row: seq<string>)
    ensures |row| == |Columns|
    ensures forall j :: 0 <= j < |Columns| ==> (Columns[j] in d ==> row[j] == d[Columns[j]])
    ensures forall j :: 0 <= j < |Columns| ==> (Columns[j] !in d ==> row[j] == "")
  {
    seq(|Columns|, j requires 0 <= j < |Columns| => Lookup(d, Columns[j]))
  }

  /** `rows` is what `csv_save` writes for `data`: the header, then one row
      per record in order. */
  predicate IsCsv(rows: seq<seq<string>>, data: seq<Dict>) {
    && |rows| == |data| + 1
    && rows[0] == Header
    && forall i :: 0 <= i < |data| ==> rows[i + 1] == Row(data[i])
  }

  /** A scraped record's row carries its cells in header order and its URL
      last; no column falls back to the empty default. */
  lemma RowOfRecord(a: Anchor, join: UrlJoin)
    requires RecordOf(a, join).Ok?
    ensures Row(RecordOf(a, join).value)
         == [a.row.value[0], a.row.value[1], a.row.value[2], a.row.value[3], join(BaseUrl, a.href.value)]
  {
    var d := RecordOf(a, join).value;
    var r := Row(d);
    assert Columns[0] in d && Columns[1] in d && Columns[2] in d && Columns[3] in d && Columns[4] in d;
    assert r[0] == d["case-number"];
  }
}
