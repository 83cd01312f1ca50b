/** `RccTexasScraper`: the object whose `search_params` a search overwrites,
    and the record dicts that `get_record_details` fills in afterwards.  Each
    method runs its loop and is proved to agree with the specification in
    `RrcExtract` and `RrcDownload`. */
module RrcScraper {
  import opened Wrappers
  import opened Html
  import opened Http
  import opened FormState
  import opened Collect
  import opened RrcDownload
  import opened RrcExtract
  import opened RrcRewrite

  /** A record dict: `tracking-no`, `url` and `api-no` are set when it is
      made; `operator-name` and `forms` are absent until `get_record_details`
      sets them. */
  class Record {
    var trackingNo: string
    var url: string
    var apiNo: string
    var operatorName: Option<string>
    var forms: Option<seq<FormRef>>

    constructor (l: Listing)
      ensures AsListing() == l && operatorName == None && forms == None
    {
      trackingNo, url, apiNo := l.trackingNo, l.url, l.apiNo;
      operatorName, forms := None, None;
    }

    /** The three entries set at creation. */
    function AsListing(): Listing
      reads this
    {
      Listing(trackingNo, url, apiNo)
    }
  }

  /** The entries set at creation of each record of `rs`, in order. */
  function ListingsOf(rs: seq<Record>): (ls: seq<Listing>)
    reads set r | r in rs
    ensures |ls| == |rs|
    ensures forall i :: 0 <= i < |rs| ==> ls[i] == rs[i].AsListing()
  {
    seq(|rs|, i reads set r | r in rs requires 0 <= i < |rs| => rs[i].AsListing())
  }

  /** The records a method returned agree with the specification: the same
      error, or new records, distinct objects without `operator-name` or
      `forms`, whose entries are the specified ones. */
  ghost predicate NewRecords(r: Result<seq<Record>>, spec: Result<seq<Listing>>)
    reads if r.Ok? then set x | x in r.value else {}
  {
    match r
    case Err(e) => spec == Err(e)
    case Ok(rs) =>
      && spec == Ok(ListingsOf(rs))
      && (forall i :: 0 <= i < |rs| ==> rs[i].operatorName == None && rs[i].forms == None)
      && (forall i, j :: 0 <= i < j < |rs| ==> rs[i] != rs[j])
  }

  /** The body of `get_records`'s loop over one results page: a new record
      per packet link, in document order. */
  method RecordsFromPage(page: Page) returns (r: Result<seq<Record>>)
    ensures NewRecords(r, Listings(page.gridAnchors))
    ensures r.Ok? ==> forall i :: 0 <= i < |r.value| ==> fresh(r.value[i])
  {
    var sel := Filter(page.gridAnchors, PacketLink);
    var records: seq<Record> := [];
    var i := 0;
    while i < |sel|
      invariant 0 <= i <= |sel|
      invariant CollectAll(ListingsOf(records), sel[i..], RecordOf) == CollectAll([], sel, RecordOf)
      invariant forall k :: 0 <= k < |records| ==>
        fresh(records[k]) && records[k].operatorName == None && records[k].forms == None
      invariant forall k, m :: 0 <= k < m < |records| ==> records[k] != records[m]
    {
      assert sel[i..][1..] == sel[i + 1..];
      match RecordOf(sel[i]) {
        case Err(e) =>
          return Err(e);
        case Ok(l) =>
          var rec := new Record(l);
          assert ListingsOf(records + [rec]) == ListingsOf(records) + [l];
          records := records + [rec];
      }
      i := i + 1;
    }
    r := Ok(records);
  }

  class RccTexasScraper {
    const url := BaseUrl
    const params := InitialParams()
    var searchParams: map<string, Param>

    /** `search_params` always holds its paramValue as a string. */
    predicate Valid()
      reads this
    {
      HasTemplate(searchParams)
    }

    constructor ()
      ensures searchParams == InitialSearchParams()
      ensures Valid()
    {
      searchParams := InitialSearchParams();
      InitialTemplate();
    }

    /** `submit_search`: format the stored paramValue with the criteria,
        store the result back, and GET `self.url` with the parameters. */
    method SubmitSearch(fromDate: string, toDate: string, operator: string) returns (r: Result<HttpRequest>)
      requires Valid()
      modifies this`searchParams
      ensures Valid()
      ensures match SearchParams(old(searchParams), fromDate, toDate, operator)
        case Ok(p) => searchParams == p && r == Ok(Get(url, p))
        case Err(e) => searchParams == old(searchParams) && r == Err(e)
    {
      var formatted := Format(searchParams[ParamKey].s, fromDate, toDate, operator);
      match formatted {
        case Err(e) =>
          r := Err(e);
        case Ok(v) =>
          searchParams := searchParams[ParamKey := Str(v)];
          r := Ok(Get(url, searchParams));
      }
    }

    /** `submit_search_post`: load the search form, harvest its controls,
        delete the exclude flag, set the criteria, and POST to the form's
        action. */
    method SubmitSearchPost(fromDate: string, toDate: string, operator: string, server: Server, join: UrlJoin)
      returns (r: Result<HttpRequest>)
      ensures r == PostRequest(server(Get(BaseUrl, InitialParams())), join, fromDate, toDate, operator)
    {
      var page := server(Get(url, params));
      if page.packetForm.None? {
        return Err(AttributeError("'NoneType' object has no attribute 'find_all'"));
      }
      var form := page.packetForm.value;
      var data: Fields := map[];
      var i := 0;
      while i < |form.inputs|
        invariant 0 <= i <= |form.inputs|
        invariant Harvest(data, form.inputs[i..], true) == Harvest(map[], form.inputs, true)
      {
        var c := form.inputs[i];
        assert form.inputs[i..][1..] == form.inputs[i + 1..];
        if c.typ == Some("button") && c.value != Some("Search") {
          i := i + 1;
          continue;
        }
        if c.name.Some? && c.name.value != "" {
          data := data[c.name.value := c.value];
        }
        i := i + 1;
      }
      var j := 0;
      while j < |form.selects|
        invariant 0 <= j <= |form.selects|
        invariant Harvest(data, form.selects[j..], false) == Harvest(Harvest(map[], form.inputs, true), form.selects, false)
      {
        var c := form.selects[j];
        assert form.selects[j..][1..] == form.selects[j + 1..];
        if c.name.Some? && c.name.value != "" {
          data := data[c.name.value := c.value];
        }
        j := j + 1;
      }
      if ExcludeKey !in data {
        return Err(KeyError(ExcludeKey));
      }
      data := data - {ExcludeKey};
      data := data[FromKey := Some(fromDate)];
      data := data[ToKey := Some(toDate)];
      data := data[OperatorKey := Some(operator)];
      data := data[MethodKey := Some("search")];
      if form.action.None? {
        return Err(KeyError("action"));
      }
      r := Ok(Post(join(url, form.action.value), data));
    }

    /** `get_records`: search, then turn each packet link of the first
        results page into a new record. */
    method GetRecords(fromDate: string, toDate: string, operator: string, server: Server)
      returns (r: Result<seq<Record>>)
      requires Valid()
      modifies this`searchParams
      ensures Valid()
      ensures match SearchParams(old(searchParams), fromDate, toDate, operator)
        case Ok(p) => searchParams == p
        case Err(_) => searchParams == old(searchParams)
      ensures NewRecords(r, RecordsSpec(old(searchParams), fromDate, toDate, operator, server))
      ensures r.Ok? ==> forall i :: 0 <= i < |r.value| ==> fresh(r.value[i])
    {
      ghost var spec := RecordsSpec(searchParams, fromDate, toDate, operator, server);
      var req := SubmitSearch(fromDate, toDate, operator);
      if req.Err? {
        return Err(req.error);
      }
      assert req.value == Get(BaseUrl, searchParams);
      assert spec == Listings(server(req.value).gridAnchors);
      r := RecordsFromPage(server(req.value));
    }

    /** `get_record_details`: fetch the record's page, store the operator
        name, then empty the record's forms and append one per `View` anchor
        of the attachment table. */
    method GetRecordDetails(record: Record, server: Server, join: UrlJoin) returns (out: Outcome)
      modifies record
      ensures record.AsListing() == old(record.AsListing())
      ensures var d := DetailsSpec(old(record.operatorName), old(record.forms), server(Get(record.url, map[])), join);
        record.operatorName == d.operatorName && record.forms == d.forms && out == d.outcome
    {
      var page := server(Get(record.url, map[]));
      match page.operatorCell {
        case NoOperatorCell =>
          return Fail(AttributeError("'NoneType' object has no attribute 'strong'"));
        case OperatorCell(None) =>
          return Fail(AttributeError("'NoneType' object has no attribute 'text'"));
        case OperatorCell(Some(t)) =>
          record.operatorName := Some(Text.Strip(t));
      }
      match page.attachments {
        case NoHeader =>
          return Fail(AttributeError("'NoneType' object has no attribute 'find_parent'"));
        case HeaderOutsideTable =>
          record.forms := Some([]);
          return Fail(AttributeError("'NoneType' object has no attribute 'find_all'"));
        case Table(anchors) =>
          record.forms := Some([]);
          var views := Filter(anchors, IsView);
          var i := 0;
          while i < |views|
            invariant 0 <= i <= |views|
            invariant record.AsListing() == old(record.AsListing())
            invariant record.operatorName == DetailsSpec(old(record.operatorName), old(record.forms), page, join).operatorName
            invariant record.forms.Some?
            invariant CollectAll(record.forms.value, views[i..], FormReader(join)) == CollectAll([], views, FormReader(join))
          {
            assert views[i..][1..] == views[i + 1..];
            match FormOf(views[i], join) {
              case Err(e) =>
                return Fail(e);
              case Ok(f) =>
                record.forms := Some(record.forms.value + [f]);
            }
            i := i + 1;
          }
          out := Pass;
      }
    }

    /** `download_forms`: look up the record's directory and forms, then
        fetch each form and write it unless (with `check`) its file exists. */
    method DownloadForms(record: Record, disk: Disk, remote: Remote, check: bool) returns (out: Outcome)
      modifies disk
      ensures match FormsToFetch(record.apiNo, record.operatorName, record.forms)
        case Err(e) => out == Fail(e) && disk.files == old(disk.files)
        case Ok((dir, forms)) => Run(disk.files, out) == Download(old(disk.files), forms, PlanFor(dir, remote), check)
    {
      var lookup := FormsToFetch(record.apiNo, record.operatorName, record.forms);
      if lookup.Err? {
        return Fail(lookup.error);
      }
      var (dir, forms) := lookup.value;
      var plan := PlanFor(dir, remote);
      var i := 0;
      while i < |forms|
        invariant 0 <= i <= |forms|
        invariant Download(disk.files, forms[i..], plan, check) == Download(old(disk.files), forms, plan, check)
      {
        assert forms[i..][1..] == forms[i + 1..];
        var target := Target(dir, forms[i], remote);
        if target.Err? {
          return Fail(target.error);
        }
        var path := target.value;
        if check && disk.Exists(path) {
          i := i + 1;
          continue;
        }
        disk.Write(path, remote.get(forms[i].url).body);
        i := i + 1;
      }
      out := Pass;
    }

    /** `scrape`: get the records, fetch the details of the first one only,
        then download the forms of every record.  A second record has no
        `operator-name`, so a run succeeds only with at most one record. */
    method Scrape(fromDate: string, toDate: string, operator: string, server: Server, join: UrlJoin, disk: Disk, remote: Remote)
      returns (out: Outcome)
      requires Valid()
      modifies this`searchParams, disk
      ensures Valid()
      ensures var spec := RecordsSpec(old(searchParams), fromDate, toDate, operator, server);
        && (spec.Err? ==> out == Fail(spec.error) && disk.files == old(disk.files))
        && (out == Pass ==> spec.Ok? && |spec.value| <= 1)
    {
      ghost var spec := RecordsSpec(searchParams, fromDate, toDate, operator, server);
      var got := GetRecords(fromDate, toDate, operator, server);
      if got.Err? {
        return Fail(got.error);
      }
      var records := got.value;
      assert spec.Ok? && |spec.value| == |records|;
      ghost var p := searchParams;
      if |records| > 0 {
        out := GetRecordDetails(records[0], server, join);
        if out.Fail? {
          return;
        }
      }
      var i := 0;
      while i < |records|
        invariant 0 <= i <= |records| && i <= 1
        invariant forall k :: 1 <= k < |records| ==> records[k].operatorName == None
        invariant searchParams == p
      {
        out := DownloadForms(records[i], disk, remote, true);
        if out.Fail? {
          return;
        }
        i := i + 1;
      }
      out := Pass;
    }
  }
}
