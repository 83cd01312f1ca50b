/** What the RRC scraper reads from the pages it fetches, and the request
    field sets it builds, as functions of the parsed pages.  The class in
    `RrcScraper` runs these steps with loops and in-place updates and is
    proved to agree with them. */
module RrcExtract {
  import opened Wrappers
  import opened Text
  import opened Html
  import opened Http
  import opened FormState
  import opened Collect
  import opened RrcRewrite
  import opened RrcDownload

  const BaseUrl := "http://webapps.rrc.texas.gov/CMPL/publicSearchAction.do"

  const ParamKey := "searchArgs.paramValue"
  const MethodKey := "formData.methodHndlr.inputValue"
  const ExcludeKey := "searchArgs.excludeStatusAndApprovedDtHndlr.booleanValue"
  const FromKey := "searchArgs.fromSubmitDtArgHndlr.inputValue"
  const ToKey := "searchArgs.toSubmitDtArgHndlr.inputValue"
  const OperatorKey := "searchArgs.operatorNoArgHndlr.inputValue"

  /** `self.params`: the query of the GET that loads the search form. */
  function InitialParams(): map<string, Param> {
    map[
      MethodKey := Str("init"),
      "formData.headerTabSelected" := Str("home"),
      "formData.pageForwardHndlr.inputValue" := Str("home")
    ]
  }

  /** `self.search_params` as the constructor sets it. */
  function InitialSearchParams(): map<string, Param> {
    map[
      "pager.pageSize" := Num(100),
      "pager.offset" := Num(0),
      MethodKey := Str("search"),
      ParamKey := Str(ParamTemplate),
      "offset" := Num(0),
      "pageSize" := Str("10"),
      "formData.hrefValue" := Str("|1003=home|1005=home|1007=0")
    ]
  }

  /** The `td` that holds `Operator Name:` on a detail page: absent, present
      without a `<strong>` child, or present with one whose text is given. */
  datatype OperatorCell = NoOperatorCell | OperatorCell(strong: Option<string>)

  /** The `Form/Attachment` header of a detail page: absent, present outside
      any `<table>`, or inside a table whose anchors are given in document
      order. */
  datatype AttachmentTable = NoHeader | HeaderOutsideTable | Table(anchors: seq<Anchor>)

  /** A fetched page, reduced to what the scraper's selectors find in it. */
  datatype Page = Page(
    packetForm: Option<HtmlForm>,   // `soup.find('form', attrs={'name': 'externalPacketForm'})`
    gridAnchors: seq<Anchor>,       // the anchors under `table.DataGrid`
    operatorCell: OperatorCell,
    attachments: AttachmentTable)

  /** The server: the page it answers a request with. */
  type Server = HttpRequest -> Page

  // ---------------------------------------------------------------------
  // submit_search: the paramValue template

  /** `self.search_params` holds its template as a string. */
  predicate HasTemplate(params: map<string, Param>) {
    ParamKey in params && params[ParamKey].Str?
  }

  /** The new `self.search_params` after `submit_search(from, to, op)`: the
      stored paramValue formatted with the criteria, or the `format` error
      (raised before the assignment, so nothing changes). */
  function SearchParams(params: map<string, Param>, fromDate: string, toDate: string, operator: string): (r: Result<map<string, Param>>)
    requires HasTemplate(params)
    ensures r.Ok? ==> r.value.Keys == params.Keys && HasTemplate(r.value)
    ensures r.Ok? ==> forall k :: k in params && k != ParamKey ==> r.value[k] == params[k]
  {
    match Format(params[ParamKey].s, fromDate, toDate, operator)
    case Err(e) => Err(e)
    case Ok(v) => Ok(params[ParamKey := Str(v)])
  }

  lemma InitialTemplate()
    ensures HasTemplate(InitialSearchParams())
    ensures InitialSearchParams()[ParamKey] == Str(ParamTemplate)
  {
  }

  /** A fresh scraper's first search sends the criteria string, and changes
      nothing else. */
  lemma FirstSearch(fromDate: string, toDate: string, operator: string)
    ensures HasTemplate(InitialSearchParams())
    ensures SearchParams(InitialSearchParams(), fromDate, toDate, operator)
         == Ok(InitialSearchParams()[ParamKey := Str(Criteria(fromDate, toDate, operator))])
  {
    InitialTemplate();
    FormatTemplate(fromDate, toDate, operator);
  }

  /** The template is overwritten in place, so a second search on the same
      scraper (with brace-free first criteria) sends the first search's
      criteria again, whatever it is asked for. */
  lemma SecondSearchRepeatsFirst(f1: string, t1: string, o1: string, f2: string, t2: string, o2: string)
    requires BraceFree(f1) && BraceFree(t1) && BraceFree(o1)
    ensures var p1 := InitialSearchParams()[ParamKey := Str(Criteria(f1, t1, o1))];
      HasTemplate(p1) && SearchParams(p1, f2, t2, o2) == Ok(p1)
  {
    var p1 := InitialSearchParams()[ParamKey := Str(Criteria(f1, t1, o1))];
    FormatKeepsCriteria(f1, t1, o1, f2, t2, o2);
    assert p1[ParamKey := Str(Criteria(f1, t1, o1))] == p1;
  }

  // ---------------------------------------------------------------------
  // submit_search_post: the POST field set

  /** The field set `submit_search_post` posts, given the search form. */
  function PostFields(form: HtmlForm, fromDate: string, toDate: string, operator: string): Result<Fields> {
    var data := Harvest(Harvest(map[], form.inputs, true), form.selects, false);
    if ExcludeKey !in data then Err(KeyError(ExcludeKey))
    else Ok((data - {ExcludeKey})[FromKey := Some(fromDate)][ToKey := Some(toDate)]
                                 [OperatorKey := Some(operator)][MethodKey := Some("search")])
  }

  /** The request `submit_search_post` sends, given the search page. */
  function PostRequest(page: Page, join: UrlJoin, fromDate: string, toDate: string, operator: string): Result<HttpRequest> {
    match page.packetForm
    case None => Err(AttributeError("'NoneType' object has no attribute 'find_all'"))
    case Some(form) =>
      match PostFields(form, fromDate, toDate, operator)
      case Err(e) => Err(e)
      case Ok(data) =>
        match form.action
        case None => Err(KeyError("action"))
        case Some(action) => Ok(Post(join(BaseUrl, action), data))
  }

  /** The fixed keys the POST always carries. */
  function Overrides(): set<string> { {FromKey, ToKey, OperatorKey, MethodKey} }

  /** Building the field set fails exactly when no stored control is named
      `searchArgs.excludeStatusAndApprovedDtHndlr.booleanValue`.  When it
      succeeds its keys are the stored names without that one, plus the four
      criteria keys, which carry the arguments and `'search'`. */
  lemma PostFieldsSpec(form: HtmlForm, fromDate: string, toDate: string, operator: string)
    ensures var sent := SentNames(form.inputs, true) + SentNames(form.selects, false);
      && (PostFields(form, fromDate, toDate, operator).Ok? <==> ExcludeKey in sent)
      && (PostFields(form, fromDate, toDate, operator).Err? ==>
            PostFields(form, fromDate, toDate, operator).error == KeyError(ExcludeKey))
      && (PostFields(form, fromDate, toDate, operator).Ok? ==>
            var d := PostFields(form, fromDate, toDate, operator).value;
            && d.Keys == (sent - {ExcludeKey}) + Overrides()
            && d[FromKey] == Some(fromDate) && d[ToKey] == Some(toDate)
            && d[OperatorKey] == Some(operator) && d[MethodKey] == Some("search"))
  {
    var first := Harvest(map[], form.inputs, true);
    HarvestKeys(map[], form.inputs, true);
    HarvestKeys(first, form.selects, false);
  }

  /** A button other than `Search` is never posted: a name that only such
      buttons carry (and that is not one of the criteria keys) is absent. */
  lemma OtherButtonsOmitted(form: HtmlForm, fromDate: string, toDate: string, operator: string, k: string)
    requires PostFields(form, fromDate, toDate, operator).Ok?
    requires k !in Overrides()
    requires forall i :: 0 <= i < |form.inputs| && form.inputs[i].name == Some(k) ==> OtherButton(form.inputs[i])
    requires forall i :: 0 <= i < |form.selects| ==> form.selects[i].name != Some(k)
    ensures k !in PostFields(form, fromDate, toDate, operator).value
  {
    PostFieldsSpec(form, fromDate, toDate, operator);
    assert k !in SentNames(form.inputs, true);
    assert k !in SentNames(form.selects, false);
  }

  /** An input other than a skipped button is posted with its own value when
      no later input and no select shares its name. */
  lemma PostFieldsInputValue(form: HtmlForm, fromDate: string, toDate: string, operator: string, i: nat)
    requires PostFields(form, fromDate, toDate, operator).Ok?
    requires i < |form.inputs| && Sent(form.inputs[i], true)
    requires form.inputs[i].name.value !in Overrides() + {ExcludeKey}
    requires forall j :: i < j < |form.inputs| && Sent(form.inputs[j], true) ==> form.inputs[j].name != form.inputs[i].name
    requires forall j :: 0 <= j < |form.selects| && Named(form.selects[j]) ==> form.selects[j].name != form.inputs[i].name
    ensures form.inputs[i].name.value in PostFields(form, fromDate, toDate, operator).value
    ensures PostFields(form, fromDate, toDate, operator).value[form.inputs[i].name.value] == form.inputs[i].value
  {
    var first := Harvest(map[], form.inputs, true);
    HarvestLastWins(map[], form.inputs, true, i);
    HarvestUntouched(first, form.selects, false, form.inputs[i].name.value);
  }

  /** A select's value wins over an input of the same name, since selects are
      harvested second, and of several selects of one name the last wins. */
  lemma PostFieldsLastControlWins(form: HtmlForm, fromDate: string, toDate: string, operator: string, i: nat)
    requires PostFields(form, fromDate, toDate, operator).Ok?
    requires i < |form.selects| && Named(form.selects[i])
    requires form.selects[i].name.value !in Overrides() + {ExcludeKey}
    requires forall j :: i < j < |form.selects| && Named(form.selects[j]) ==> form.selects[j].name != form.selects[i].name
    ensures form.selects[i].name.value in PostFields(form, fromDate, toDate, operator).value
    ensures PostFields(form, fromDate, toDate, operator).value[form.selects[i].name.value] == form.selects[i].value
  {
    HarvestLastWins(Harvest(map[], form.inputs, true), form.selects, false, i);
  }

  // ---------------------------------------------------------------------
  // get_records: the result rows

  /** The fields `get_records` stores for a result row. */
  datatype Listing = Listing(trackingNo: string, url: string, apiNo: string)

  const PacketSummary := "?packetSummary"

  /** `a[href*="?packetSummary"]` */
  predicate PacketLink(a: Anchor) {
    a.href.Some? && Contains(a.href.value, PacketSummary)
  }

  /** One result row: the tracking number is the anchor's stripped text, the
      URL is `self.url` followed by the href without its session id, and the
      API number is the stripped fourth cell. */
  function RecordOf(a: Anchor): Result<Listing> {
    match a.row
    case None => Err(AttributeError("'NoneType' object has no attribute 'find_all'"))
    case Some(cells) =>
      match a.href
      case None => Err(KeyError("href"))
      case Some(href) =>
        if |cells| < 4 then Err(IndexError("list index out of range"))
        else Ok(Listing(Strip(a.text), BaseUrl + StripSession(href), Strip(cells[3])))
  }

  /** The records `get_records` returns for a results page (only the first
      page is ever read: the loop ends in an unconditional `break`). */
  function Listings(anchors: seq<Anchor>): Result<seq<Listing>> {
    var c := CollectAll([], Filter(anchors, PacketLink), RecordOf);
    match c.outcome
    case Pass => Ok(c.items)
    case Fail(e) => Err(e)
  }

  /** `get_records` as a whole: the search request, then the first page. */
  function RecordsSpec(params: map<string, Param>, fromDate: string, toDate: string, operator: string, server: Server): Result<seq<Listing>>
    requires HasTemplate(params)
  {
    match SearchParams(params, fromDate, toDate, operator)
    case Err(e) => Err(e)
    case Ok(p) => Listings(server(Get(BaseUrl, p)).gridAnchors)
  }

  /** Every selected anchor sits in a row of at least four cells. */
  predicate Readable(sel: seq<Anchor>) {
    forall i :: 0 <= i < |sel| ==> sel[i].row.Some? && |sel[i].row.value| >= 4
  }

  /** The records are the selected anchors' rows, one each and in document
      order, and the extraction fails exactly when one of those anchors has no
      row or a row of fewer than four cells, with the first such anchor's
      error. */
  lemma ListingsSpec(anchors: seq<Anchor>)
    ensures var sel := Filter(anchors, PacketLink);
      && (Listings(anchors).Ok? <==> Readable(sel))
      && (Listings(anchors).Ok? ==>
            var ls := Listings(anchors).value;
            && |ls| == |sel|
            && forall i :: 0 <= i < |sel| ==>
                 && ls[i].trackingNo == Strip(sel[i].text)
                 && ls[i].url == BaseUrl + StripSession(sel[i].href.value)
                 && ls[i].apiNo == Strip(sel[i].row.value[3]))
      && (Listings(anchors).Err? ==>
            var k := FirstFailure(sel, RecordOf);
            k < |sel| && Listings(anchors).error == RecordOf(sel[k]).error)
  {
    var sel := Filter(anchors, PacketLink);
    CollectAllSpec([], sel, RecordOf);
    var k := FirstFailure(sel, RecordOf);
    var c := CollectAll([], sel, RecordOf);
    if k < |sel| {
      assert Listings(anchors) == Err(c.outcome.error);
      assert PacketLink(sel[k]);
      assert !(sel[k].row.Some? && |sel[k].row.value| >= 4);
    } else {
      assert Listings(anchors) == Ok(c.items);
      forall i | 0 <= i < |sel| ensures sel[i].row.Some? && |sel[i].row.value| >= 4 {
        assert RecordOf(sel[i]).Ok?;
      }
    }
  }

  /** Every record URL is `self.url` followed by a path free of
      `;jsessionid=`. */
  lemma ListingUrlsClean(anchors: seq<Anchor>)
    requires Listings(anchors).Ok?
    ensures forall l :: l in Listings(anchors).value ==>
      StartsWith(l.url, BaseUrl) && !Contains(l.url[|BaseUrl|..], SessionMark)
  {
    var sel := Filter(anchors, PacketLink);
    var ls := Listings(anchors).value;
    ListingsSpec(anchors);
    forall l | l in ls ensures StartsWith(l.url, BaseUrl) && !Contains(l.url[|BaseUrl|..], SessionMark) {
      var i :| 0 <= i < |ls| && ls[i] == l;
      var rest := StripSession(sel[i].href.value);
      assert l.url == BaseUrl + rest;
      assert l.url[..|BaseUrl|] == BaseUrl;
      assert l.url[|BaseUrl|..] == rest;
      StripSessionRemovesAll(sel[i].href.value);
    }
  }

  // ---------------------------------------------------------------------
  // get_record_details: the forms list

  /** `t.text.strip() == 'View'` */
  predicate IsView(a: Anchor) { Strip(a.text) == "View" }

  /** One attachment row: the stripped first cell names it, and the href
      joined to `self.url` locates it. */
  function FormOf(a: Anchor, join: UrlJoin): Result<FormRef> {
    match a.row
    case None => Err(AttributeError("'NoneType' object has no attribute 'find_all'"))
    case Some(cells) =>
      if |cells| == 0 then Err(IndexError("list index out of range"))
      else
        match a.href
        case None => Err(KeyError("href"))
        case Some(href) => Ok(FormRef(Strip(cells[0]), join(BaseUrl, href)))
  }

  function FormReader(join: UrlJoin): Anchor -> Result<FormRef> {
    a => FormOf(a, join)
  }

  /** The `operator-name` and `forms` entries of a record after
      `get_record_details`, and how it ended.  Each entry is replaced only once
      the steps before it succeeded; the forms list is emptied before the
      table is searched and filled one row at a time. */
  datatype Details = Details(operatorName: Option<string>, forms: Option<seq<FormRef>>, outcome: Outcome)

  function DetailsSpec(name: Option<string>, forms: Option<seq<FormRef>>, page: Page, join: UrlJoin): Details {
    match page.operatorCell
    case NoOperatorCell => Details(name, forms, Fail(AttributeError("'NoneType' object has no attribute 'strong'")))
    case OperatorCell(None) => Details(name, forms, Fail(AttributeError("'NoneType' object has no attribute 'text'")))
    case OperatorCell(Some(t)) =>
      match page.attachments
      case NoHeader => Details(Some(Strip(t)), forms, Fail(AttributeError("'NoneType' object has no attribute 'find_parent'")))
      case HeaderOutsideTable => Details(Some(Strip(t)), Some([]), Fail(AttributeError("'NoneType' object has no attribute 'find_all'")))
      case Table(anchors) =>
        var c := CollectAll([], Filter(anchors, IsView), FormReader(join));
        Details(Some(Strip(t)), Some(c.items), c.outcome)
  }

  /** The forms collected from the `View` anchors: one per anchor, in order,
      when none of them fails. */
  lemma FormsCollected(views: seq<Anchor>, join: UrlJoin)
    ensures var c := CollectAll([], views, FormReader(join));
      && (c.outcome == Pass <==> forall i :: 0 <= i < |views| ==> FormOf(views[i], join).Ok?)
      && (c.outcome == Pass ==>
            |c.items| == |views|
            && forall i :: 0 <= i < |views| ==>
                 && c.items[i].name == Strip(views[i].row.value[0])
                 && c.items[i].url == join(BaseUrl, views[i].href.value))
  {
    var c := CollectAll([], views, FormReader(join));
    CollectAllSpec([], views, FormReader(join));
    CollectAllPasses([], views, FormReader(join));
    if c.outcome == Pass {
      forall i | 0 <= i < |views|
        ensures c.items[i].name == Strip(views[i].row.value[0])
        ensures c.items[i].url == join(BaseUrl, views[i].href.value)
      {
        assert FormReader(join)(views[i]) == Ok(c.items[i]);
      }
    }
  }

  /** On a well-formed detail page the record gets the stripped operator name
      and exactly one form per `View` anchor of the attachment table, in
      document order, whatever forms it held before. */
  lemma DetailsSpecForms(name: Option<string>, forms: Option<seq<FormRef>>, page: Page, join: UrlJoin)
    requires page.operatorCell.OperatorCell? && page.operatorCell.strong.Some?
    requires page.attachments.Table?
    ensures var d := DetailsSpec(name, forms, page, join);
      var views := Filter(page.attachments.anchors, IsView);
      && d.operatorName == Some(Strip(page.operatorCell.strong.value))
      && d.forms == Some(CollectAll([], views, FormReader(join)).items)
      && d.outcome == CollectAll([], views, FormReader(join)).outcome
  {
  }

  /** The lookups in `download_forms`: `record["operator-name"]` inside the
      directory name, then `record['forms']`. */
  function FormsToFetch(apiNo: string, name: Option<string>, forms: Option<seq<FormRef>>): Result<(string, seq<FormRef>)> {
    match name
    case None => Err(KeyError("operator-name"))
    case Some(op) =>
      match forms
      case None => Err(KeyError("forms"))
      case Some(fs) => Ok((Subdir(apiNo, op), fs))
  }

  /** A record `get_record_details` never ran on cannot be downloaded. */
  lemma NoDetailsNoDownload(apiNo: string, forms: Option<seq<FormRef>>)
    ensures FormsToFetch(apiNo, None, forms) == Err(KeyError("operator-name"))
  {
  }
}
